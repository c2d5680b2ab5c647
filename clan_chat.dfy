/** The floating clan chat: which messages it fetches and shows, the unread
    badge while it is closed, and sending. */
module ClanChatView {
  import opened Common
  import opened Entities
  import opened Sorting
  import opened Store

  /** The query's filter: the team's messages when a team id is given
      (an empty id counts as none), the whole event's otherwise. */
  function InScope(eventId: Id, teamId: Option<Id>): ChatMessage -> bool
  {
    (m: ChatMessage) => m.eventId == eventId && (teamId.None? || teamId.value == "" || m.teamId == teamId)
  }

  /** `filter(scope, '-created_date', 100)`: the newest hundred messages in
      scope, newest first. */
  function Fetched(all: seq<ChatMessage>, eventId: Id, teamId: Option<Id>): seq<ChatMessage>
  {
    Take(SortDesc(Keep(all, InScope(eventId, teamId)), MessageTime), 100)
  }

  /** `[...messages].reverse()`: the order the panel lists them in. */
  function Displayed(fetched: seq<ChatMessage>): seq<ChatMessage>
  {
    Reverse(fetched)
  }

  lemma ReverseOfDescIsAsc(s: seq<ChatMessage>)
    requires SortedDesc(s, MessageTime)
    ensures SortedAsc(Reverse(s), MessageTime)
  {
    var r := Reverse(s);
    forall i, j | 0 <= i < j < |r| ensures MessageTime(r[i]) <= MessageTime(r[j]) {
      assert r[i] == s[|s| - 1 - i] && r[j] == s[|s| - 1 - j];
    }
  }

  /** The panel shows at most a hundred messages, all of the event (and of
      the team when one is given), oldest first. */
  lemma DisplayedOldestFirst(all: seq<ChatMessage>, eventId: Id, teamId: Option<Id>)
    ensures var d := Displayed(Fetched(all, eventId, teamId));
            && |d| <= 100 && SortedAsc(d, MessageTime)
            && forall m :: m in d ==>
                 m in all && m.eventId == eventId && (teamId.Some? && teamId.value != "" ==> m.teamId == teamId)
  {
    var kept := Keep(all, InScope(eventId, teamId));
    var sorted := SortDesc(kept, MessageTime);
    SortDescSortedPermutation(kept, MessageTime);
    var f := Fetched(all, eventId, teamId);
    assert SortedDesc(f, MessageTime);
    ReverseOfDescIsAsc(f);
    forall m | m in Displayed(f)
      ensures m in all && m.eventId == eventId && (teamId.Some? && teamId.value != "" ==> m.teamId == teamId)
    {
      var i :| 0 <= i < |f| && Displayed(f)[i] == m;
      assert m == f[|f| - 1 - i];
      assert m in multiset(kept);
      var k :| 0 <= k < |kept| && kept[k] == m;
    }
  }

  /** The text `handleSend` sends: the trimmed draft, when it is not blank
      and someone is signed in. */
  function SendText(draft: string, user: Option<User>): (r: Option<string>)
    ensures r.Some? <==> Trim(draft) != "" && user.Some?
    ensures r.Some? ==> r.value == Trim(draft) && r.value != ""
  {
    if Trim(draft) == "" || user.None? then None else Some(Trim(draft))
  }

  /** The record `sendMessage` creates; the backend assigns `id` and the
      creation time `now`. */
  function Outgoing(text: string, user: Option<User>, eventId: Id, teamId: Option<Id>, id: Id, now: int): (r: ChatMessage)
    ensures r.message == text && r.messageType == "chat" && r.eventId == eventId
    ensures r.senderName == SenderName(user) && r.senderName != ""
    ensures r.teamId.Some? <==> teamId.Some? && teamId.value != ""
  {
    ChatMessage(id, eventId, if teamId.Some? && teamId.value != "" then teamId else None, SenderName(user),
                if user.Some? then user.value.email else None, text, "chat", now)
  }

  /** The bubble on the closed chat button: nothing without unread
      messages, the count up to nine, "9+" beyond. */
  function BadgeText(unread: nat): (r: Option<string>)
    ensures r.None? <==> unread == 0
    ensures unread > 9 ==> r == Some("9+")
    ensures 0 < unread <= 9 ==> r.Some? && |r.value| == 1 && DigitsValue(r.value) == unread
  {
    if unread == 0 then None
    else if unread > 9 then Some("9+")
    else
      NatToStringRoundTrip(unread);
      Some(NatToString(unread))
  }

  class ClanChat {
    const store: Store
    const eventId: Id
    const teamId: Option<Id>
    const user: Option<User>
    var isOpen: bool
    var unreadCount: nat
    var lastMessageCount: nat
    var draft: string

    /** An open chat has nothing unread. */
    ghost predicate Valid()
      reads this
    {
      isOpen ==> unreadCount == 0
    }

    constructor(store: Store, eventId: Id, teamId: Option<Id>, user: Option<User>)
      ensures this.store == store && this.eventId == eventId && this.teamId == teamId && this.user == user
      ensures !isOpen && unreadCount == 0 && lastMessageCount == 0 && draft == "" && Valid()
    {
      this.store := store;
      this.eventId := eventId;
      this.teamId := teamId;
      this.user := user;
      isOpen := false;
      unreadCount := 0;
      lastMessageCount := 0;
      draft := "";
    }

    /** The effect that runs when the number of fetched messages is
        `count`: while closed, the unread count grows by the increase since
        the last run (a decrease adds nothing); the count is remembered. */
    method CountChanged(count: nat)
      modifies this`unreadCount, this`lastMessageCount
      ensures unreadCount == old(unreadCount) + (if !isOpen && count > old(lastMessageCount) then count - old(lastMessageCount) else 0)
      ensures lastMessageCount == count
      ensures old(Valid()) ==> Valid()
    {
      if !isOpen && count > lastMessageCount {
        unreadCount := unreadCount + (count - lastMessageCount);
      }
      lastMessageCount := count;
    }

    /** Opening or closing the chat: the count effect runs, and opening then
        clears the unread count. */
    method SetOpen(open: bool, count: nat)
      requires Valid()
      modifies this`isOpen, this`unreadCount, this`lastMessageCount
      ensures isOpen == open && lastMessageCount == count
      ensures open ==> unreadCount == 0
      ensures !open ==> unreadCount == old(unreadCount) + (if count > old(lastMessageCount) then count - old(lastMessageCount) else 0)
      ensures Valid()
    {
      isOpen := open;
      CountChanged(count);
      if open {
        unreadCount := 0;
      }
    }

    method Type(text: string)
      modifies this`draft
      ensures draft == text
    {
      draft := text;
    }

    /** `handleSend` followed by a successful `sendMessage`: a blank draft
        or a missing user sends nothing; otherwise the trimmed text is
        stored as a chat message and the draft is cleared. */
    method HandleSend(id: Id, now: int)
      modifies store`messages, this`draft
      ensures SendText(old(draft), user).None? ==> store.messages == old(store.messages) && draft == old(draft)
      ensures SendText(old(draft), user).Some? ==>
                store.messages == old(store.messages) + [Outgoing(Trim(old(draft)), user, eventId, teamId, id, now)]
                && draft == ""
    {
      var text := SendText(draft, user);
      if text.None? { return; }
      store.CreateMessage(Outgoing(text.value, user, eventId, teamId, id, now));
      draft := "";
    }
  }
}
