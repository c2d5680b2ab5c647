/** The chat panel on a team's page: its ordering of messages, the composer
    and sending. */
module TeamChatView {
  import opened Common
  import opened Entities
  import opened Sorting
  import opened Store
  import Clan = ClanChatView

  /** `[...messages].sort((a, b) => created(a) - created(b))`: a sorted copy. */
  function Displayed(messages: seq<ChatMessage>): seq<ChatMessage>
  {
    SortAsc(messages, MessageTime)
  }

  /** The panel lists every fetched message once, oldest first, and messages
      sent at the same moment keep their fetch order. */
  lemma DisplayedOrder(messages: seq<ChatMessage>, t: int)
    ensures SortedAsc(Displayed(messages), MessageTime)
    ensures multiset(Displayed(messages)) == multiset(messages)
    ensures WithKey(Displayed(messages), MessageTime, t) == WithKey(messages, MessageTime, t)
  {
    SortAscSortedPermutation(messages, MessageTime);
    SortAscStable(messages, MessageTime, t);
  }

  /** The composer is shown only to a signed-in user; its send button is
      disabled while the draft is blank. */
  predicate ShowsComposer(user: Option<User>)
  {
    user.Some?
  }

  predicate SendDisabled(draft: string)
  {
    Trim(draft) == ""
  }

  /** Whatever the send button lets through, `handleSend` sends. */
  lemma EnabledButtonSends(draft: string, user: Option<User>)
    ensures ShowsComposer(user) && !SendDisabled(draft) <==> Clan.SendText(draft, user).Some?
  {
  }

  class TeamChat {
    const store: Store
    const eventId: Id
    const teamId: Id
    const user: Option<User>
    var draft: string

    constructor(store: Store, eventId: Id, teamId: Id, user: Option<User>)
      ensures this.store == store && this.eventId == eventId && this.teamId == teamId && this.user == user
      ensures draft == ""
    {
      this.store := store;
      this.eventId := eventId;
      this.teamId := teamId;
      this.user := user;
      draft := "";
    }

    method Type(text: string)
      modifies this`draft
      ensures draft == text
    {
      draft := text;
    }

    /** `handleSend` followed by a successful `sendMessage`: the trimmed
        text is stored under the team, with the sender's name falling back
        from display name to full name to "Player", and the draft is
        cleared; a blank draft or a missing user sends nothing. */
    method HandleSend(id: Id, now: int)
      modifies store`messages, this`draft
      ensures Clan.SendText(old(draft), user).None? ==> store.messages == old(store.messages) && draft == old(draft)
      ensures Clan.SendText(old(draft), user).Some? ==>
                && store.messages == old(store.messages) + [ChatMessage(id, eventId, Some(teamId), SenderName(user),
                     if user.Some? then user.value.email else None, Trim(old(draft)), "chat", now)]
                && draft == ""
    {
      var text := Clan.SendText(draft, user);
      if text.None? { return; }
      store.CreateMessage(ChatMessage(id, eventId, Some(teamId), SenderName(user),
                                      if user.Some? then user.value.email else None, text.value, "chat", now));
      draft := "";
    }
  }
}
