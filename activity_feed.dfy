/** The "Recent Activity" panel: the event's submissions and non-chat
    messages merged into one list, newest first, at most twenty. */
module ActivityFeedView {
  import opened Common
  import opened Entities
  import opened Sorting

  /** One row of the feed. */
  datatype Activity =
    | CompletionItem(id: string, status: Status, player: string, team: Option<string>, teamColor: Option<string>,
                     task: string, points: Option<int>, usedDouble: bool, timestamp: int)
    | SystemItem(id: string, messageType: string, sender: string, message: string, timestamp: int)

  function Timestamp(a: Activity): int
  {
    a.timestamp
  }

  /** The row pushed for one completion. */
  function CompletionActivity(c: Completion, teams: seq<Team>, tiles: seq<Tile>): Activity
  {
    var team := FindTeam(teams, c.teamId);
    CompletionItem("completion-" + c.id, c.status, c.playerName,
                   if team.Some? then team.value.name else None,
                   if team.Some? then team.value.color else None,
                   TaskOf(tiles, c.tileId), c.pointsAwarded, c.usedDoublePoints, c.createdDate)
  }

  /** `m.message_type !== 'chat'`. */
  predicate IsSystem(m: ChatMessage)
  {
    m.messageType != "chat"
  }

  /** The row pushed for one system message. */
  function SystemActivity(m: ChatMessage): Activity
  {
    SystemItem("chat-" + m.id, m.messageType, m.senderName, m.message, m.createdDate)
  }

  /** The rows of the first loop. */
  function CompletionItems(cs: seq<Completion>, teams: seq<Team>, tiles: seq<Tile>): seq<Activity>
  {
    if cs == [] then []
    else CompletionItems(cs[..|cs| - 1], teams, tiles) + [CompletionActivity(cs[|cs| - 1], teams, tiles)]
  }

  function SystemRows(ms: seq<ChatMessage>): seq<Activity>
  {
    if ms == [] then [] else SystemRows(ms[..|ms| - 1]) + [SystemActivity(ms[|ms| - 1])]
  }

  /** The rows of the second loop: one per message that is not chat. */
  function SystemItems(ms: seq<ChatMessage>): seq<Activity>
  {
    SystemRows(Keep(ms, IsSystem))
  }

  /** Each completion yields exactly one row, in order, whose id is
      "completion-" followed by the completion's id. */
  lemma {:induction false} CompletionItemsShape(cs: seq<Completion>, teams: seq<Team>, tiles: seq<Tile>)
    ensures |CompletionItems(cs, teams, tiles)| == |cs|
    ensures forall i :: 0 <= i < |cs| ==> CompletionItems(cs, teams, tiles)[i] == CompletionActivity(cs[i], teams, tiles)
  {
    if cs != [] {
      var n := |cs| - 1;
      var pre := CompletionItems(cs[..n], teams, tiles);
      CompletionItemsShape(cs[..n], teams, tiles);
      assert CompletionItems(cs, teams, tiles) == pre + [CompletionActivity(cs[n], teams, tiles)];
      forall i | 0 <= i < n ensures CompletionItems(cs, teams, tiles)[i] == CompletionActivity(cs[i], teams, tiles) {
        assert pre[i] == CompletionActivity(cs[..n][i], teams, tiles);
        assert cs[..n][i] == cs[i];
      }
    }
  }

  /** Every system row comes from a message that is not chat, and each such
      message yields exactly one row. */
  lemma {:induction false} SystemRowsShape(ms: seq<ChatMessage>)
    ensures |SystemRows(ms)| == |ms|
    ensures forall i :: 0 <= i < |ms| ==> SystemRows(ms)[i] == SystemActivity(ms[i])
  {
    if ms != [] {
      var n := |ms| - 1;
      SystemRowsShape(ms[..n]);
      forall i | 0 <= i < n ensures SystemRows(ms)[i] == SystemActivity(ms[i]) {
        assert ms[..n][i] == ms[i];
      }
    }
  }

  lemma SystemItemsFromSystemMessages(ms: seq<ChatMessage>)
    ensures |SystemItems(ms)| == |Keep(ms, IsSystem)|
    ensures forall a :: a in SystemItems(ms) ==> exists m :: m in ms && IsSystem(m) && a == SystemActivity(m)
  {
    var kept := Keep(ms, IsSystem);
    SystemRowsShape(kept);
    forall a | a in SystemItems(ms) ensures exists m :: m in ms && IsSystem(m) && a == SystemActivity(m) {
      var i :| 0 <= i < |kept| && SystemItems(ms)[i] == a;
      assert kept[i] in ms && IsSystem(kept[i]);
    }
  }

  /** The two `forEach` loops filling `items`. */
  method BuildItems(completions: seq<Completion>, chatMessages: seq<ChatMessage>, teams: seq<Team>, tiles: seq<Tile>)
    returns (items: seq<Activity>)
    ensures items == CompletionItems(completions, teams, tiles) + SystemItems(chatMessages)
  {
    var fromCompletions := AddCompletionRows(completions, teams, tiles);
    var fromMessages := AddSystemRows(Keep(chatMessages, IsSystem));
    items := fromCompletions + fromMessages;
  }

  /** The first loop: one row per completion. */
  method AddCompletionRows(completions: seq<Completion>, teams: seq<Team>, tiles: seq<Tile>)
    returns (items: seq<Activity>)
    ensures items == CompletionItems(completions, teams, tiles)
  {
    items := [];
    for i := 0 to |completions|
      invariant items == CompletionItems(completions[..i], teams, tiles)
    {
      items := items + [CompletionActivity(completions[i], teams, tiles)];
      assert completions[..i + 1][..i] == completions[..i];
    }
    assert completions[..|completions|] == completions;
  }

  /** The second loop: one row per message that is not chat. */
  method AddSystemRows(shown: seq<ChatMessage>) returns (items: seq<Activity>)
    ensures items == SystemRows(shown)
  {
    items := [];
    for j := 0 to |shown|
      invariant items == SystemRows(shown[..j])
    {
      items := items + [SystemActivity(shown[j])];
      assert shown[..j + 1][..j] == shown[..j];
    }
    assert shown[..|shown|] == shown;
  }

  /** `items.sort(newest first).slice(0, 20)`. */
  function Activities(items: seq<Activity>): seq<Activity>
  {
    Take(SortDesc(items, Timestamp), 20)
  }

  /** The feed is ordered newest first, holds at most twenty rows, each one
      of the built rows, all of them when there are at most twenty, and no
      row left out is newer than a row shown. */
  lemma FeedIsNewestTwenty(items: seq<Activity>)
    ensures var r := Activities(items);
            && |r| <= 20 && SortedDesc(r, Timestamp)
            && (forall a :: a in r ==> a in items)
            && (|items| <= 20 ==> multiset(r) == multiset(items))
            && (forall a, i :: a in multiset(items) - multiset(r) && 0 <= i < |r| ==> Timestamp(a) <= Timestamp(r[i]))
  {
    var s := SortDesc(items, Timestamp);
    SortDescSortedPermutation(items, Timestamp);
    var r := Take(s, 20);
    assert s == r + s[|r|..];
    assert multiset(items) - multiset(r) == multiset(s[|r|..]);
    PrefixOfSorted(s, |r|);
    forall a | a in r ensures a in items {
      assert a in multiset(s);
    }
  }

  /** A prefix of a newest-first list is newest first, and no later row is
      newer than a row of the prefix. */
  lemma PrefixOfSorted(s: seq<Activity>, n: nat)
    requires SortedDesc(s, Timestamp) && n <= |s|
    ensures SortedDesc(s[..n], Timestamp)
    ensures forall a, i :: a in multiset(s[n..]) && 0 <= i < n ==> Timestamp(a) <= Timestamp(s[i])
  {
    forall a, i | a in multiset(s[n..]) && 0 <= i < n ensures Timestamp(a) <= Timestamp(s[i]) {
      assert a in s[n..];
      var j :| 0 <= j < |s[n..]| && s[n..][j] == a;
      assert s[n + j] == a;
    }
  }

  /** Rows from distinct completions have distinct ids, and no completion
      row shares its id with a message row. */
  lemma CompletionIdsDistinct(c: Completion, d: Completion, m: ChatMessage, teams: seq<Team>, tiles: seq<Tile>)
    ensures c.id != d.id ==> CompletionActivity(c, teams, tiles).id != CompletionActivity(d, teams, tiles).id
    ensures CompletionActivity(c, teams, tiles).id != SystemActivity(m).id
  {
    var a := CompletionActivity(c, teams, tiles).id;
    var b := CompletionActivity(d, teams, tiles).id;
    if a == b {
      assert a[11..] == c.id && b[11..] == d.id;
    }
    assert a[1] == 'o' && SystemActivity(m).id[1] == 'h';
  }

  /** `statusText`: pending reads "submitted", approved "completed", and
      every other status "rejected". */
  function StatusText(s: Status): (r: string)
    ensures s == Approved <==> r == "completed"
    ensures s == Pending <==> r == "submitted"
    ensures s != Approved && s != Pending <==> r == "rejected"
  {
    if s == Approved then "completed" else if s == Pending then "submitted" else "rejected"
  }

  /** The "+n pts" part: only on rows of approved completions; "(2x!)"
      only there too, and only when double points were used. */
  predicate ShowsPoints(a: Activity)
  {
    a.CompletionItem? && a.status == Approved
  }

  predicate ShowsDouble(a: Activity)
  {
    ShowsPoints(a) && a.usedDouble
  }

  lemma PointsOnlyWhenApproved(c: Completion, teams: seq<Team>, tiles: seq<Tile>, m: ChatMessage)
    ensures ShowsPoints(CompletionActivity(c, teams, tiles)) <==> c.status == Approved
    ensures ShowsDouble(CompletionActivity(c, teams, tiles)) <==> c.status == Approved && c.usedDoublePoints
    ensures !ShowsPoints(SystemActivity(m))
    ensures (forall t :: t in tiles ==> t.id != c.tileId) ==> CompletionActivity(c, teams, tiles).task == "Unknown tile"
  {
  }
}
