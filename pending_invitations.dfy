/** The panel of invitations waiting for the signed-in player, and the
    accept/decline answer to one of them. */
module PendingInvitationsPanel {
  import opened Common
  import opened Entities
  import opened Store
  import Invite = InviteDialog

  /** The account e-mail, when the query is enabled (`!!user?.email`). */
  predicate HasEmail(user: Option<User>)
  {
    user.Some? && user.value.email.Some? && user.value.email.value != ""
  }

  /** `EventInvitation.filter({ invitee_email: user.email, status: 'pending' })`. */
  function IsPendingFor(email: string): Invitation -> bool
  {
    (i: Invitation) => i.inviteeEmail == email && i.status == InvitePending
  }

  /** The listed invitations: none while the query is disabled. */
  function Listed(invs: seq<Invitation>, user: Option<User>): seq<Invitation>
  {
    if HasEmail(user) then Keep(invs, IsPendingFor(user.value.email.value)) else []
  }

  /** The listed invitations are exactly the pending ones addressed to the
      account's e-mail (matched exactly, so an address typed in capitals at
      sign-up never sees its lowercased invitations), in store order. */
  lemma ListedExact(invs: seq<Invitation>, user: Option<User>, more: seq<Invitation>)
    ensures forall i :: i in Listed(invs, user) <==>
              HasEmail(user) && i in invs && i.inviteeEmail == user.value.email.value && i.status == InvitePending
    ensures Listed(invs + more, user) == Listed(invs, user) + Listed(more, user)
  {
    if HasEmail(user) {
      var r := Listed(invs, user);
      forall i | i in r ensures i in invs && IsPendingFor(user.value.email.value)(i) {
        var k :| 0 <= k < |r| && r[k] == i;
      }
      forall i | i in invs && IsPendingFor(user.value.email.value)(i) ensures i in r {
        var k :| 0 <= k < |invs| && invs[k] == i;
      }
      KeepAppend(invs, more, IsPendingFor(user.value.email.value));
    }
  }

  /** `if (!user || invitations.length === 0) return null`. */
  predicate RendersNothing(invs: seq<Invitation>, user: Option<User>)
  {
    user.None? || |Listed(invs, user)| == 0
  }

  /** The panel shows exactly when a signed-in account has a pending
      invitation addressed to it. */
  lemma RendersIffSomethingPending(invs: seq<Invitation>, user: Option<User>)
    ensures !RendersNothing(invs, user) <==>
              HasEmail(user) && exists i :: i in invs && i.inviteeEmail == user.value.email.value && i.status == InvitePending
  {
    ListedExact(invs, user, []);
    var r := Listed(invs, user);
    if r != [] {
      assert r[0] in r;
    }
  }

  /** The membership an accepted invitation creates: the invitation's event
      and team, the account's e-mail and its display name, full name or
      'Player'. */
  function Joined(user: User, invite: Invitation, id: Id): (m: Membership)
    ensures m.eventId == invite.eventId && m.teamId == invite.teamId && m.userEmail == user.email
    ensures user.displayName.Some? && user.displayName.value != "" ==> m.displayName == user.displayName.value
    ensures (user.displayName.None? || user.displayName.value == "") && user.fullName.Some? && user.fullName.value != ""
            ==> m.displayName == user.fullName.value
    ensures (user.displayName.None? || user.displayName.value == "") && (user.fullName.None? || user.fullName.value == "")
            ==> m.displayName == "Player"
  {
    Membership(id, invite.eventId, invite.teamId, user.email, SenderName(Some(user)))
  }

  function SetInviteStatus(s: InvitationStatus): Invitation -> Invitation
  {
    (i: Invitation) => i.(status := s)
  }

  function Answer(accept: bool): InvitationStatus
  {
    if accept then Accepted else Declined
  }

  /** `respondToInvite`: accepting first joins the team, then either answer
      is written on the invitation. */
  method Respond(store: Store, user: User, invite: Invitation, accept: bool, membershipId: Id)
    modifies store`memberships, store`invitations
    ensures accept ==> store.memberships == old(store.memberships) + [Joined(user, invite, membershipId)]
    ensures !accept ==> store.memberships == old(store.memberships)
    ensures store.invitations == UpdateWhere(old(store.invitations), InvitationKey, {invite.id}, SetInviteStatus(Answer(accept)))
  {
    if accept {
      store.CreateMembership(Joined(user, invite, membershipId));
    }
    store.UpdateInvitation(invite.id, SetInviteStatus(Answer(accept)));
  }

  /** After an answer, the answered invitation (every record with its id)
      leaves the list and every other listed invitation stays. */
  lemma AnsweredLeavesList(invs: seq<Invitation>, user: Option<User>, id: Id, accept: bool)
    ensures forall i :: i in Listed(UpdateWhere(invs, InvitationKey, {id}, SetInviteStatus(Answer(accept))), user) <==>
              i in Listed(invs, user) && i.id != id
  {
    var after := UpdateWhere(invs, InvitationKey, {id}, SetInviteStatus(Answer(accept)));
    ListedExact(invs, user, []);
    ListedExact(after, user, []);
    forall i | i in Listed(after, user) ensures i in Listed(invs, user) && i.id != id {
      var k :| 0 <= k < |after| && after[k] == i;
      assert InvitationKey(invs[k]) !in {id};
    }
    forall i | i in Listed(invs, user) && i.id != id ensures i in Listed(after, user) {
      var k :| 0 <= k < |invs| && invs[k] == i;
      assert after[k] == i;
    }
  }

  /** Once a listed invitation is accepted, the invitee holds a membership
      of that event, so the invite dialog refuses to invite them again. */
  lemma AcceptedIsMember(invs: seq<Invitation>, ms: seq<Membership>, user: User, invite: Invitation, id: Id)
    requires invite in Listed(invs, Some(user))
    ensures Invite.HasMembership(ms + [Joined(user, invite, id)], invite.eventId, invite.inviteeEmail)
  {
    ListedExact(invs, Some(user), []);
    assert (ms + [Joined(user, invite, id)])[|ms|] == Joined(user, invite, id);
  }
}
