/** The records the client reads from and writes to its hosted backend.
    Field names follow the stored records. A field the client reads with an
    `|| default` fallback and which a record may lack is an `Option`; a
    missing array is an empty sequence and a missing powerup counter is a
    key absent from the map. Record ids are strings; tile ids are the
    integers the event-creation page stores. */
module Entities {
  import opened Common

  type Id = string

  datatype Difficulty = Easy | Medium | Hard | Elite | Master

  datatype TileType = Normal | DoublePoints | MysteryType | Boss

  /** One cell of the board; `id` is also its row-major position. */
  datatype Tile = Tile(
    id: int,
    task: string,
    points: int,
    difficulty: Difficulty,
    tileType: TileType,
    isMystery: bool,
    revealed: bool)

  datatype EventStatus = Upcoming | Active | Completed

  datatype BingoEvent = BingoEvent(
    id: Id,
    name: string,
    description: string,
    template: string,
    startTime: int,
    endTime: int,
    status: EventStatus,
    tiles: seq<Tile>)

  /** An entry of a team's `blocked_tiles`: older records hold a bare tile
      id, newer ones an object naming the blocking team's colour. */
  datatype BlockedEntry = Legacy(tileId: int) | Marked(tileId: int, blockerColor: Option<string>)

  /** The powerup counter keys the client reads and writes. */
  const DoublePointsKey: string := "double_points"
  const RevealMysteryKey: string := "reveal_mystery"
  const StealCompletionKey: string := "steal_completion"
  const BlockTileKey: string := "block_tile"
  const StealTileKey: string := "steal_tile"

  datatype Team = Team(
    id: Id,
    eventId: Id,
    name: Option<string>,
    color: Option<string>,
    members: seq<string>,
    totalPoints: Option<int>,
    completedTiles: seq<int>,
    powerups: map<string, int>,
    powerupCooldowns: map<string, int>,
    blockedTiles: seq<BlockedEntry>,
    captainEmail: Option<string>,
    bannerUrl: Option<string>,
    iconUrl: Option<string>,
    pinnedMessage: Option<string>)

  /** `powerups?.[key] || 0`. */
  function PowerupCount(powerups: map<string, int>, key: string): int
  {
    if key in powerups then powerups[key] else 0
  }

  datatype Status = Pending | Approved | Rejected | OtherStatus(name: string)

  /** A submission: one team's claim that it finished one tile. */
  datatype Completion = Completion(
    id: Id,
    eventId: Id,
    teamId: Id,
    tileId: int,
    playerName: string,
    screenshotUrl: string,
    status: Status,
    pointsAwarded: Option<int>,
    usedDoublePoints: bool,
    createdDate: int)

  /** `points_awarded || 0`. */
  function Awarded(c: Completion): int
  {
    OrZero(c.pointsAwarded)
  }

  /** Binds a player (account e-mail or browser session id) to a team. */
  datatype Membership = Membership(
    id: Id,
    eventId: Id,
    teamId: Id,
    userEmail: Option<string>,
    displayName: string)

  datatype InvitationStatus = InvitePending | Accepted | Declined

  datatype Invitation = Invitation(
    id: Id,
    eventId: Id,
    teamId: Id,
    teamName: Option<string>,
    eventName: string,
    inviterEmail: string,
    inviterName: Option<string>,
    inviteeEmail: string,
    status: InvitationStatus)

  datatype Profile = Profile(
    id: Id,
    username: Option<string>,
    sessionId: string,
    userEmail: Option<string>,
    isAdmin: bool,
    bannedUntil: Option<int>,
    selectedBadge: Option<string>)

  datatype ChatMessage = ChatMessage(
    id: Id,
    eventId: Id,
    teamId: Option<Id>,
    senderName: string,
    senderEmail: Option<string>,
    message: string,
    messageType: string,
    createdDate: int)

  /** The sort key of chat messages. */
  function MessageTime(m: ChatMessage): int
  {
    m.createdDate
  }

  /** The signed-in account, as the authentication service reports it. */
  datatype User = User(
    email: Option<string>,
    fullName: Option<string>,
    displayName: Option<string>,
    role: Option<string>)

  /** `user?.display_name || user?.full_name || 'Player'`. */
  function SenderName(user: Option<User>): (r: string)
    ensures user.Some? && user.value.displayName.Some? && user.value.displayName.value != ""
            ==> r == user.value.displayName.value
    ensures user.Some? && (user.value.displayName.None? || user.value.displayName.value == "")
            && user.value.fullName.Some? && user.value.fullName.value != ""
            ==> r == user.value.fullName.value
    ensures user.Some? && (user.value.displayName.None? || user.value.displayName.value == "")
            && (user.value.fullName.None? || user.value.fullName.value == "")
            ==> r == "Player"
    ensures user.None? ==> r == "Player"
    ensures r != ""
  {
    if user.None? then "Player"
    else OrElse(user.value.displayName, OrElse(user.value.fullName, "Player"))
  }

  /** `completions.filter(c => c.status === s)`. */
  function WithStatus(cs: seq<Completion>, s: Status): (r: seq<Completion>)
    ensures |r| <= |cs|
    ensures forall c :: c in r <==> c in cs && c.status == s
  {
    if cs == [] then []
    else if cs[0].status == s then [cs[0]] + WithStatus(cs[1..], s)
    else WithStatus(cs[1..], s)
  }

  /** Completions of one team. */
  function OfTeam(cs: seq<Completion>, teamId: Id): (r: seq<Completion>)
    ensures |r| <= |cs|
    ensures forall c :: c in r <==> c in cs && c.teamId == teamId
  {
    if cs == [] then []
    else if cs[0].teamId == teamId then [cs[0]] + OfTeam(cs[1..], teamId)
    else OfTeam(cs[1..], teamId)
  }

  /** `reduce((sum, c) => sum + (c.points_awarded || 0), 0)`. */
  function PointsSum(cs: seq<Completion>): int
  {
    if cs == [] then 0 else Awarded(cs[0]) + PointsSum(cs[1..])
  }

  lemma {:induction false} PointsSumAppend(a: seq<Completion>, b: seq<Completion>)
    ensures PointsSum(a + b) == PointsSum(a) + PointsSum(b)
  {
    if a == [] {
      assert a + b == b;
    } else {
      assert (a + b)[1..] == a[1..] + b;
      PointsSumAppend(a[1..], b);
    }
  }

  /** The first tile with the given id, as `tiles.find(t => t.id === id)`. */
  function FindTile(tiles: seq<Tile>, id: int): (r: Option<Tile>)
    ensures r.Some? ==> r.value in tiles && r.value.id == id
    ensures r.None? <==> forall t :: t in tiles ==> t.id != id
  {
    if tiles == [] then None
    else if tiles[0].id == id then Some(tiles[0])
    else FindTile(tiles[1..], id)
  }

  /** `find` stops at the first match: when the tile at `k` is the
      first with the id, it is the one found. */
  lemma {:induction false} FindTileFirst(tiles: seq<Tile>, id: int, k: nat)
    requires k < |tiles| && tiles[k].id == id
    requires forall j :: 0 <= j < k ==> tiles[j].id != id
    ensures FindTile(tiles, id) == Some(tiles[k])
  {
    if k > 0 {
      FindTileFirst(tiles[1..], id, k - 1);
    }
  }

  /** `tiles.find(t => t.id === tileId)?.task || 'Unknown tile'`, the
      task line the submission lists show. */
  function TaskOf(tiles: seq<Tile>, tileId: int): (r: string)
    ensures FindTile(tiles, tileId).Some? && FindTile(tiles, tileId).value.task != "" ==> r == FindTile(tiles, tileId).value.task
    ensures (forall t :: t in tiles ==> t.id != tileId) ==> r == "Unknown tile"
    ensures r != ""
  {
    var t := FindTile(tiles, tileId);
    if t.Some? && t.value.task != "" then t.value.task else "Unknown tile"
  }

  /** The first team with the given id, as `teams.find(t => t.id === id)`. */
  function FindTeam(teams: seq<Team>, id: Id): (r: Option<Team>)
    ensures r.Some? ==> r.value in teams && r.value.id == id
    ensures r.None? <==> forall t :: t in teams ==> t.id != id
  {
    if teams == [] then None
    else if teams[0].id == id then Some(teams[0])
    else FindTeam(teams[1..], id)
  }

  /** `find` stops at the first match: when the team at `k` is the
      first with the id, it is the one found. */
  lemma {:induction false} FindTeamFirst(teams: seq<Team>, id: Id, k: nat)
    requires k < |teams| && teams[k].id == id
    requires forall j :: 0 <= j < k ==> teams[j].id != id
    ensures FindTeam(teams, id) == Some(teams[k])
  {
    if k > 0 {
      FindTeamFirst(teams[1..], id, k - 1);
    }
  }

  /** `Team.filter({ event_id })`. */
  function TeamsOfEvent(ts: seq<Team>, eventId: Id): (r: seq<Team>)
    ensures |r| <= |ts|
    ensures forall i :: 0 <= i < |r| ==> r[i] in ts && r[i].eventId == eventId
    ensures forall t :: t in ts && t.eventId == eventId ==> t in r
  {
    if ts == [] then []
    else if ts[0].eventId == eventId then [ts[0]] + TeamsOfEvent(ts[1..], eventId)
    else TeamsOfEvent(ts[1..], eventId)
  }

  /** `TileCompletion.filter({ event_id })`. */
  function CompletionsOfEvent(cs: seq<Completion>, eventId: Id): (r: seq<Completion>)
    ensures |r| <= |cs|
    ensures forall i :: 0 <= i < |r| ==> r[i] in cs && r[i].eventId == eventId
    ensures forall c :: c in cs && c.eventId == eventId ==> c in r
  {
    if cs == [] then []
    else if cs[0].eventId == eventId then [cs[0]] + CompletionsOfEvent(cs[1..], eventId)
    else CompletionsOfEvent(cs[1..], eventId)
  }

  function TeamIds(ts: seq<Team>): set<Id>
  {
    set t | t in ts :: t.id
  }

  function CompletionIds(cs: seq<Completion>): set<Id>
  {
    set c | c in cs :: c.id
  }

  /** The ids of a list's first i + 1 elements are those of its first i and
      the next one's. */
  lemma TeamIdsPrefix(ts: seq<Team>, i: nat)
    requires i < |ts|
    ensures TeamIds(ts[..i + 1]) == TeamIds(ts[..i]) + {ts[i].id}
  {
    var pre := ts[..i + 1];
    assert pre == ts[..i] + [ts[i]];
    forall id | id in TeamIds(pre) ensures id in TeamIds(ts[..i]) + {ts[i].id} {
      var k :| 0 <= k < |pre| && pre[k].id == id;
      if k < i {
        assert ts[..i][k] == pre[k];
      }
    }
  }

  lemma CompletionIdsPrefix(cs: seq<Completion>, i: nat)
    requires i < |cs|
    ensures CompletionIds(cs[..i + 1]) == CompletionIds(cs[..i]) + {cs[i].id}
  {
    var pre := cs[..i + 1];
    assert pre == cs[..i] + [cs[i]];
    forall id | id in CompletionIds(pre) ensures id in CompletionIds(cs[..i]) + {cs[i].id} {
      var k :| 0 <= k < |pre| && pre[k].id == id;
      if k < i {
        assert cs[..i][k] == pre[k];
      }
    }
  }

  /** Record ids are distinct, as the backend assigns them. */
  predicate UniqueTeamIds(ts: seq<Team>)
  {
    forall i, j :: 0 <= i < j < |ts| ==> ts[i].id != ts[j].id
  }

  predicate UniqueCompletionIds(cs: seq<Completion>)
  {
    forall i, j :: 0 <= i < j < |cs| ==> cs[i].id != cs[j].id
  }
}
