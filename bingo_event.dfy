/** The event page: the player's team choice, tile clicks, submissions,
    the four powerups, the admin's status changes and the leaderboard
    resets. Each handler is the ordered sequence of backend writes the page
    performs; the page's own state (selected and locked team, the tile
    being submitted or blocked, open dialogs) lives in `EventPage`. */
module BingoEventPage {
  import opened Common
  import opened Entities
  import opened Store
  import Board

  // ---------------------------------------------------------------------
  // Record changes the handlers write

  /** `updateTeamPowerups` seen on the acting team's record: one unit of a
      positive counter is spent and its cooldown stamped; a missing or
      zero counter leaves the record as it is. */
  function SpendPowerup(t: Team, kind: string, now: int): (r: Team)
    ensures PowerupCount(t.powerups, kind) > 0 ==>
              PowerupCount(r.powerups, kind) == PowerupCount(t.powerups, kind) - 1 &&
              r.powerupCooldowns == t.powerupCooldowns[kind := now]
    ensures PowerupCount(t.powerups, kind) <= 0 ==> r == t
    ensures forall k :: k != kind ==> PowerupCount(r.powerups, k) == PowerupCount(t.powerups, k)
    ensures r.(powerups := t.powerups, powerupCooldowns := t.powerupCooldowns) == t
    ensures r == t || PowerupCount(r.powerups, kind) >= 0
  {
    var count := PowerupCount(t.powerups, kind);
    if count > 0 then
      t.(powerups := t.powerups[kind := count - 1], powerupCooldowns := t.powerupCooldowns[kind := now])
    else t
  }

  /** The team list after `updateTeamPowerups(kind)` for the selected team:
      the counters are read from the team's stored record and written back
      to every record with that id. */
  function SpentTeams(ts: seq<Team>, selected: Option<Id>, kind: string, now: int): seq<Team>
  {
    if selected.None? then ts
    else
      var t := FindTeam(ts, selected.value);
      if t.Some? && PowerupCount(t.value.powerups, kind) > 0 then
        var s := SpendPowerup(t.value, kind, now);
        UpdateWhere(ts, TeamKey, {selected.value}, SetPowerups(s.powerups, s.powerupCooldowns))
      else ts
  }

  lemma {:induction false} FindTeamUnique(ts: seq<Team>, i: nat)
    requires UniqueTeamIds(ts) && i < |ts|
    ensures FindTeam(ts, ts[i].id) == Some(ts[i])
  {
    if i > 0 {
      assert ts[0].id != ts[i].id;
      FindTeamUnique(ts[1..], i - 1);
    }
  }

  /** With distinct team ids, spending a powerup changes exactly the acting
      team's record, as `SpendPowerup` describes, and no other. */
  lemma SpentTeamsEffect(ts: seq<Team>, selected: Id, kind: string, now: int)
    requires UniqueTeamIds(ts)
    ensures |SpentTeams(ts, Some(selected), kind, now)| == |ts|
    ensures forall i :: 0 <= i < |ts| ==>
              SpentTeams(ts, Some(selected), kind, now)[i] ==
                if ts[i].id == selected then SpendPowerup(ts[i], kind, now) else ts[i]
  {
    var r := SpentTeams(ts, Some(selected), kind, now);
    forall i | 0 <= i < |ts| && ts[i].id == selected
      ensures r[i] == SpendPowerup(ts[i], kind, now)
    {
      FindTeamUnique(ts, i);
    }
  }

  /** Spending a powerup never touches scores, completed tiles, blocks or
      members of any team. */
  lemma SpentTeamsKeepsScores(ts: seq<Team>, selected: Option<Id>, kind: string, now: int)
    ensures |SpentTeams(ts, selected, kind, now)| == |ts|
    ensures forall i :: 0 <= i < |ts| ==>
              SpentTeams(ts, selected, kind, now)[i].(powerups := ts[i].powerups,
                                                     powerupCooldowns := ts[i].powerupCooldowns) == ts[i]
  {
  }

  /** The completion `submitCompletion` creates: pending, worth twice the
      tile's points when the double powerup is used. */
  function Submission(id: Id, eventId: Id, teamId: Id, tileId: int, points: int, playerName: string,
                      screenshotUrl: string, usedDouble: bool, now: int): (r: Completion)
    ensures r.status == Pending && r.eventId == eventId && r.teamId == teamId && r.tileId == tileId
    ensures usedDouble ==> r.pointsAwarded == Some(2 * points)
    ensures !usedDouble ==> r.pointsAwarded == Some(points)
  {
    Completion(id, eventId, teamId, tileId, playerName, screenshotUrl, Pending,
               Some(if usedDouble then points * 2 else points), usedDouble, now)
  }

  const ManualDomain: string := "@manual"

  /** The placeholder e-mail of a player an admin assigns by name. */
  function ManualEmail(name: string): (r: string)
    ensures |r| == |name| + |ManualDomain|
    ensures r[..|name|] == name && r[|name|..] == ManualDomain
  {
    name + ManualDomain
  }

  /** Distinct names get distinct placeholder e-mails. */
  lemma ManualEmailsDistinct(a: string, b: string)
    requires ManualEmail(a) == ManualEmail(b)
    ensures a == b
  {
    assert |a| == |b|;
    assert a == ManualEmail(a)[..|a|];
  }

  /** With distinct team ids, an assignment leaves the name among the
      team's members and changes no other field and no other team. */
  lemma AssignAddsName(ts: seq<Team>, i: nat, name: string)
    requires UniqueTeamIds(ts) && i < |ts|
    ensures var after := if name in ts[i].members then ts
                         else UpdateWhere(ts, TeamKey, {ts[i].id}, SetMembers(ts[i].members + [name]));
            && |after| == |ts|
            && name in after[i].members
            && after[i].(members := ts[i].members) == ts[i]
            && forall j :: 0 <= j < |ts| && j != i ==> after[j] == ts[j]
  {
    if name !in ts[i].members {
      var after := UpdateWhere(ts, TeamKey, {ts[i].id}, SetMembers(ts[i].members + [name]));
      assert after[i].members == ts[i].members + [name];
      assert (ts[i].members + [name])[|ts[i].members|] == name;
    }
  }

  /** The completion `handleStealCompletion` creates: a pre-approved copy of
      another team's completion credited to the acting team. */
  function Stolen(c: Completion, id: Id, eventId: Id, teamId: Id, username: string, now: int): (r: Completion)
    ensures r.tileId == c.tileId && r.pointsAwarded == c.pointsAwarded && r.screenshotUrl == c.screenshotUrl
    ensures r.status == Approved && r.teamId == teamId && !r.usedDoublePoints
    ensures r.playerName == username + " (stolen)"
  {
    Completion(id, eventId, teamId, c.tileId, username + " (stolen)", c.screenshotUrl, Approved,
               c.pointsAwarded, false, now)
  }

  /** `event.tiles.map(...)` in `handleRevealMystery`. */
  function RevealTile(tiles: seq<Tile>, id: int): (r: seq<Tile>)
    ensures |r| == |tiles|
    ensures forall i :: 0 <= i < |tiles| ==>
              r[i] == if tiles[i].id == id then tiles[i].(revealed := true) else tiles[i]
  {
    seq(|tiles|, i requires 0 <= i < |tiles| => if tiles[i].id == id then tiles[i].(revealed := true) else tiles[i])
  }

  /** Revealing marks every tile with that id revealed, changes nothing
      else, and is idempotent on the tile list: the page does not refuse a
      second reveal of the same tile (it still spends a counter). */
  lemma RevealTileProperties(tiles: seq<Tile>, id: int)
    ensures forall t :: t in RevealTile(tiles, id) && t.id == id ==> t.revealed
    ensures forall i :: 0 <= i < |tiles| ==> RevealTile(tiles, id)[i].id == tiles[i].id
    ensures RevealTile(RevealTile(tiles, id), id) == RevealTile(tiles, id)
  {
    var r := RevealTile(tiles, id);
    forall t | t in r && t.id == id ensures t.revealed {
      var i :| 0 <= i < |r| && r[i] == t;
    }
  }

  /** The block list after `handleBlockTile` adds a tile: unchanged when an
      entry of either shape already names it. */
  function AddBlock(bs: seq<BlockedEntry>, tileId: int, color: Option<string>): seq<BlockedEntry>
  {
    if Board.IsBlocked(bs, tileId) then bs else bs + [Marked(tileId, color)]
  }

  /** The teams after `handleBlockTile` writes the target's block list; the
      write is skipped when an entry already names the tile. */
  function MarkTeams(ts: seq<Team>, targetTeamId: Id, current: seq<BlockedEntry>, tileId: int,
                     color: Option<string>): seq<Team>
  {
    if Board.IsBlocked(current, tileId) then ts
    else UpdateWhere(ts, TeamKey, {targetTeamId}, SetBlocked(AddBlock(current, tileId, color)))
  }

  /** How many entries name the tile. */
  function EntriesFor(bs: seq<BlockedEntry>, tileId: int): nat
  {
    if bs == [] then 0 else (if bs[0].tileId == tileId then 1 else 0) + EntriesFor(bs[1..], tileId)
  }

  lemma {:induction false} EntriesForAppend(a: seq<BlockedEntry>, b: seq<BlockedEntry>, tileId: int)
    ensures EntriesFor(a + b, tileId) == EntriesFor(a, tileId) + EntriesFor(b, tileId)
  {
    if a == [] {
      assert a + b == b;
    } else {
      assert (a + b)[1..] == a[1..] + b;
      EntriesForAppend(a[1..], b, tileId);
    }
  }

  lemma {:induction false} EntriesForZero(bs: seq<BlockedEntry>, tileId: int)
    ensures EntriesFor(bs, tileId) == 0 <==> !Board.IsBlocked(bs, tileId)
  {
    if bs != [] {
      EntriesForZero(bs[1..], tileId);
      assert bs == [bs[0]] + bs[1..];
      if Board.IsBlocked(bs[1..], tileId) {
        var k :| 0 <= k < |bs[1..]| && bs[1..][k].tileId == tileId;
        assert bs[k + 1].tileId == tileId;
      }
      if Board.IsBlocked(bs, tileId) && bs[0].tileId != tileId {
        var k :| 0 <= k < |bs| && bs[k].tileId == tileId;
        assert bs[1..][k - 1].tileId == tileId;
      }
    }
  }

  /** Blocking is an idempotent append: afterwards the tile is blocked, a
      list naming the tile at most once still does, and blocking the same
      tile again changes nothing. */
  lemma AddBlockIdempotent(bs: seq<BlockedEntry>, tileId: int, color: Option<string>, color': Option<string>)
    ensures Board.IsBlocked(AddBlock(bs, tileId, color), tileId)
    ensures EntriesFor(bs, tileId) <= 1 ==> EntriesFor(AddBlock(bs, tileId, color), tileId) == 1
    ensures AddBlock(AddBlock(bs, tileId, color), tileId, color') == AddBlock(bs, tileId, color)
  {
    var r := AddBlock(bs, tileId, color);
    if !Board.IsBlocked(bs, tileId) {
      assert r[|bs|].tileId == tileId;
      EntriesForZero(bs, tileId);
      EntriesForAppend(bs, [Marked(tileId, color)], tileId);
      assert [Marked(tileId, color)][1..] == [];
    } else {
      EntriesForZero(bs, tileId);
    }
  }

  /** `Membership.filter({ event_id, user_email })` for one player. */
  function MembershipsOf(ms: seq<Membership>, eventId: Id, identifier: Option<string>): seq<Membership>
  {
    Keep(ms, (m: Membership) => m.eventId == eventId && m.userEmail == identifier)
  }

  // ---------------------------------------------------------------------
  // The page

  class EventPage {
    const store: Store
    const eventId: Id
    /** The signed-in account, the browser's session id and the stored
        profile name. */
    var user: Option<User>
    var sessionId: Option<string>
    var storedUsername: Option<string>
    var selectedTeamId: Option<Id>
    var lockedTeamId: Option<Id>
    var selectedTile: Option<Tile>
    var showSubmitModal: bool
    var useDoublePowerup: bool
    var activePowerup: Option<string>
    var tileToBlock: Option<Tile>
    var showBlockModal: bool
    var showRevealModal: bool
    var showStealModal: bool

    constructor(store: Store, eventId: Id, user: Option<User>, sessionId: Option<string>, storedUsername: Option<string>)
      ensures this.store == store && this.eventId == eventId
      ensures this.user == user && this.sessionId == sessionId && this.storedUsername == storedUsername
      ensures selectedTeamId.None? && lockedTeamId.None? && selectedTile.None? && tileToBlock.None?
      ensures activePowerup.None? && !showSubmitModal && !useDoublePowerup
      ensures !showBlockModal && !showRevealModal && !showStealModal
    {
      this.store := store;
      this.eventId := eventId;
      this.user := user;
      this.sessionId := sessionId;
      this.storedUsername := storedUsername;
      selectedTeamId, lockedTeamId := None, None;
      selectedTile, tileToBlock := None, None;
      activePowerup := None;
      showSubmitModal, useDoublePowerup := false, false;
      showBlockModal, showRevealModal, showStealModal := false, false, false;
    }

    /** `user?.email || localStorage.getItem('bingo_session_id')`. */
    function Identifier(): Option<string>
      reads this
    {
      if user.Some? && user.value.email.Some? && user.value.email.value != "" then user.value.email
      else if sessionId.Some? && sessionId.value != "" then sessionId
      else None
    }

    /** `localStorage.getItem('bingo_username') || user?.full_name || 'Player'`. */
    function Username(): (r: string)
      reads this
      ensures r != ""
    {
      OrElse(storedUsername, if user.Some? then OrElse(user.value.fullName, "Player") else "Player")
    }

    function SelectedTeam(): Option<Team>
      reads this`selectedTeamId, store`teams
    {
      if selectedTeamId.Some? then FindTeam(TeamsOfEvent(store.teams, eventId), selectedTeamId.value) else None
    }

    /** The effect that locks the page to the team the player already
        belongs to in this event. */
    method SyncLock()
      modifies this`selectedTeamId, this`lockedTeamId
      ensures var ms := MembershipsOf(store.memberships, eventId, Identifier());
              if Identifier().Some? && ms != [] && FindTeam(TeamsOfEvent(store.teams, eventId), ms[0].teamId).Some?
              then selectedTeamId == Some(ms[0].teamId) && lockedTeamId == Some(ms[0].teamId)
              else selectedTeamId == old(selectedTeamId) && lockedTeamId == old(lockedTeamId)
    {
      var id := Identifier();
      if id.Some? {
        var ms := MembershipsOf(store.memberships, eventId, id);
        if ms != [] && FindTeam(TeamsOfEvent(store.teams, eventId), ms[0].teamId).Some? {
          selectedTeamId := Some(ms[0].teamId);
          lockedTeamId := Some(ms[0].teamId);
        }
      }
    }

    /** `handleSelectTeam` followed by the `joinTeam` mutation: a player
        with an account or a session, not yet locked to a team, joins the
        clicked team, is added to its member list if absent, and is locked
        to it. */
    method HandleSelectTeam(team: Team, membershipId: Id)
      modifies this`selectedTeamId, this`lockedTeamId, store`memberships, store`teams
      ensures old(lockedTeamId).Some? || (old(user).None? && (old(sessionId).None? || old(sessionId).value == "")) ==>
                selectedTeamId == old(selectedTeamId) && lockedTeamId == old(lockedTeamId) &&
                store.memberships == old(store.memberships) && store.teams == old(store.teams)
      ensures old(lockedTeamId).None? && (old(user).Some? || (old(sessionId).Some? && old(sessionId).value != "")) ==>
                && store.memberships == old(store.memberships) +
                     [Membership(membershipId, eventId, team.id, old(Identifier()), old(Username()))]
                && store.teams == (if old(Username()) in team.members then old(store.teams)
                                   else UpdateWhere(old(store.teams), TeamKey, {team.id},
                                                    SetMembers(team.members + [old(Username())])))
                && selectedTeamId == Some(team.id) && lockedTeamId == Some(team.id)
    {
      if lockedTeamId.Some? { return; }
      if user.None? && (sessionId.None? || sessionId.value == "") { return; }
      var username := Username();
      store.CreateMembership(Membership(membershipId, eventId, team.id, Identifier(), username));
      if username !in team.members {
        store.UpdateTeam(team.id, SetMembers(team.members + [username]));
      }
      selectedTeamId := Some(team.id);
      lockedTeamId := Some(team.id);
    }

    /** `handleAdminAssignPlayer`: an admin places a named player on a team
        of this event with a placeholder e-mail, and adds the name to the
        team's members when it is missing. */
    method AdminAssignPlayer(teamId: Id, playerName: string, membershipId: Id)
      modifies store`memberships, store`teams
      ensures store.memberships == old(store.memberships) +
                [Membership(membershipId, eventId, teamId, Some(ManualEmail(playerName)), playerName)]
      ensures var team := FindTeam(TeamsOfEvent(old(store.teams), eventId), teamId);
              if team.Some? && playerName !in team.value.members
              then store.teams == UpdateWhere(old(store.teams), TeamKey, {teamId},
                                              SetMembers(team.value.members + [playerName]))
              else store.teams == old(store.teams)
    {
      store.CreateMembership(Membership(membershipId, eventId, teamId, Some(ManualEmail(playerName)), playerName));
      var team := FindTeam(TeamsOfEvent(store.teams, eventId), teamId);
      if team.Some? && playerName !in team.value.members {
        store.UpdateTeam(teamId, SetMembers(team.value.members + [playerName]));
      }
    }

    /** `updateTeamPowerups`. */
    method UpdateTeamPowerups(kind: string, now: int)
      modifies store`teams
      ensures store.teams == SpentTeams(old(store.teams), selectedTeamId, kind, now)
    {
      if selectedTeamId.None? { return; }
      var t := FindTeam(store.teams, selectedTeamId.value);
      if t.Some? && PowerupCount(t.value.powerups, kind) > 0 {
        var s := SpendPowerup(t.value, kind, now);
        store.UpdateTeam(selectedTeamId.value, SetPowerups(s.powerups, s.powerupCooldowns));
      }
    }

    /** `submitCompletion` and its success handler: the pending completion
        is recorded for the selected team and, when the double powerup was
        used, one double-points counter is spent. */
    method SubmitCompletion(tileId: int, points: int, playerName: string, screenshotUrl: string,
                            usedDouble: bool, id: Id, now: int)
      modifies store`completions, store`teams
      ensures old(selectedTeamId).None? ==>
                store.completions == old(store.completions) && store.teams == old(store.teams)
      ensures old(selectedTeamId).Some? ==>
                && store.completions == old(store.completions) +
                     [Submission(id, eventId, selectedTeamId.value, tileId, points, playerName,
                                 screenshotUrl, usedDouble, now)]
                && store.teams == if usedDouble then SpentTeams(old(store.teams), selectedTeamId, DoublePointsKey, now)
                                  else old(store.teams)
    {
      if selectedTeamId.None? { return; }
      store.CreateCompletion(Submission(id, eventId, selectedTeamId.value, tileId, points, playerName,
                                        screenshotUrl, usedDouble, now));
      if usedDouble {
        UpdateTeamPowerups(DoublePointsKey, now);
      }
    }

    /** `handleTileClick`. */
    method HandleTileClick(tile: Tile)
      modifies this`tileToBlock, this`showBlockModal, this`selectedTile, this`showSubmitModal
      ensures selectedTeamId.None? || (tile.isMystery && !tile.revealed) ==>
                tileToBlock == old(tileToBlock) && showBlockModal == old(showBlockModal) &&
                selectedTile == old(selectedTile) && showSubmitModal == old(showSubmitModal)
      ensures selectedTeamId.Some? && !(tile.isMystery && !tile.revealed) && activePowerup == Some(BlockTileKey) ==>
                tileToBlock == Some(tile) && showBlockModal &&
                selectedTile == old(selectedTile) && showSubmitModal == old(showSubmitModal)
      ensures selectedTeamId.Some? && !(tile.isMystery && !tile.revealed) && activePowerup != Some(BlockTileKey) ==>
                selectedTile == Some(tile) && showSubmitModal &&
                tileToBlock == old(tileToBlock) && showBlockModal == old(showBlockModal)
    {
      if selectedTeamId.None? { return; }
      if tile.isMystery && !tile.revealed { return; }
      if activePowerup == Some(BlockTileKey) {
        tileToBlock := Some(tile);
        showBlockModal := true;
        return;
      }
      selectedTile := Some(tile);
      showSubmitModal := true;
    }

    /** `handleUsePowerup`: reveal and steal open their dialogs, any other
        powerup becomes the active one. */
    method HandleUsePowerup(kind: string)
      modifies this`showRevealModal, this`showStealModal, this`activePowerup
      ensures kind == RevealMysteryKey ==> showRevealModal && activePowerup == old(activePowerup) && showStealModal == old(showStealModal)
      ensures kind == StealCompletionKey ==> showStealModal && activePowerup == old(activePowerup) && showRevealModal == old(showRevealModal)
      ensures kind != RevealMysteryKey && kind != StealCompletionKey ==>
                activePowerup == Some(kind) && showRevealModal == old(showRevealModal) && showStealModal == old(showStealModal)
    {
      if kind == RevealMysteryKey {
        showRevealModal := true;
      } else if kind == StealCompletionKey {
        showStealModal := true;
      } else {
        activePowerup := Some(kind);
      }
    }

    /** `handleRevealMystery`: the event's tiles with that id are marked
        revealed, then one reveal counter is spent. */
    method HandleRevealMystery(tile: Tile, now: int)
      modifies store`events, store`teams
      ensures var ev := FindEvent(old(store.events), eventId);
              && (ev.None? ==> store.events == old(store.events) && store.teams == old(store.teams))
              && (ev.Some? ==>
                    store.events == UpdateWhere(old(store.events), EventKey, {eventId},
                                                SetTiles(RevealTile(ev.value.tiles, tile.id)))
                    && store.teams == SpentTeams(old(store.teams), selectedTeamId, RevealMysteryKey, now))
    {
      var ev := FindEvent(store.events, eventId);
      if ev.None? { return; }
      store.UpdateEvent(eventId, SetTiles(RevealTile(ev.value.tiles, tile.id)));
      UpdateTeamPowerups(RevealMysteryKey, now);
    }

    /** `handleStealCompletion`: a pre-approved copy of the chosen
        completion is credited to the selected team and one steal counter
        is spent; no team's total points change. */
    method HandleStealCompletion(c: Completion, id: Id, now: int)
      modifies store`completions, store`teams
      ensures old(selectedTeamId).None? ==>
                store.completions == old(store.completions) && store.teams == old(store.teams)
      ensures old(selectedTeamId).Some? ==>
                && store.completions == old(store.completions) +
                     [Stolen(c, id, eventId, selectedTeamId.value, Username(), now)]
                && store.teams == SpentTeams(old(store.teams), selectedTeamId, StealCompletionKey, now)
    {
      if selectedTeamId.None? { return; }
      store.CreateCompletion(Stolen(c, id, eventId, selectedTeamId.value, Username(), now));
      UpdateTeamPowerups(StealCompletionKey, now);
    }

    /** The writes of `handleBlockTile`: the target's blocked list gains the
        tile, unless the tile is already in it, then the selected team
        spends a block-tile counter. */
    method MarkBlocked(targetTeamId: Id, current: seq<BlockedEntry>, tileId: int, color: Option<string>, now: int)
      modifies store`teams
      ensures store.teams == SpentTeams(MarkTeams(old(store.teams), targetTeamId, current, tileId, color),
                                        selectedTeamId, BlockTileKey, now)
    {
      if !Board.IsBlocked(current, tileId) {
        store.UpdateTeam(targetTeamId, SetBlocked(AddBlock(current, tileId, color)));
      }
      UpdateTeamPowerups(BlockTileKey, now);
    }

    /** `handleBlockTile`: the chosen team gets a block entry for the tile
        unless one already names it; the acting team's block counter is
        spent either way, and block mode ends. */
    method HandleBlockTile(targetTeamId: Id, now: int)
      modifies this`activePowerup, this`tileToBlock, store`teams
      ensures var target := FindTeam(old(store.teams), targetTeamId);
              var acting := old(SelectedTeam());
              if old(tileToBlock).None? || target.None? || acting.None? then
                store.teams == old(store.teams) && activePowerup == old(activePowerup) && tileToBlock == old(tileToBlock)
              else
                var marked := MarkTeams(old(store.teams), targetTeamId, target.value.blockedTiles,
                                        old(tileToBlock).value.id, acting.value.color);
                && store.teams == SpentTeams(marked, selectedTeamId, BlockTileKey, now)
                && activePowerup.None? && tileToBlock.None?
    {
      if tileToBlock.None? { return; }
      var tileId := tileToBlock.value.id;
      var target := FindTeam(store.teams, targetTeamId);
      var acting := SelectedTeam();
      if target.None? || acting.None? { return; }
      MarkBlocked(targetTeamId, target.value.blockedTiles, tileId, acting.value.color, now);
      activePowerup := None;
      tileToBlock := None;
    }

    /** The admin's approve/reject button on the event page: only the
        status is written. */
    method OnAdminAction(submissionId: Id, status: Status)
      modifies store`completions
      ensures store.completions == UpdateWhere(old(store.completions), CompletionKey, {submissionId}, SetStatus(status))
    {
      store.UpdateCompletion(submissionId, SetStatus(status));
    }

    /** The leaderboard's reset, run only after its `confirm`: a declined
        confirmation changes nothing; otherwise every team of the event is
        zeroed, then every completion of the event is deleted, one by one. */
    method OnReset(confirmed: bool)
      modifies store`teams, store`completions
      ensures !confirmed ==> store.teams == old(store.teams) && store.completions == old(store.completions)
      ensures confirmed ==>
                store.teams == UpdateWhere(old(store.teams), TeamKey, TeamIds(TeamsOfEvent(old(store.teams), eventId)), ResetScore)
      ensures confirmed ==>
                store.completions == Without(old(store.completions), CompletionKey,
                                             CompletionIds(CompletionsOfEvent(old(store.completions), eventId)))
    {
      if !confirmed { return; }
      store.ResetTeams(TeamsOfEvent(store.teams, eventId));
      store.DeleteCompletions(CompletionsOfEvent(store.completions, eventId));
    }

    /** The per-team reset, run only after its `confirm`: a declined
        confirmation changes nothing; otherwise the team is zeroed and its
        completions in this event are deleted. */
    method OnResetTeam(teamId: Id, confirmed: bool)
      modifies store`teams, store`completions
      ensures !confirmed ==> store.teams == old(store.teams) && store.completions == old(store.completions)
      ensures confirmed ==> store.teams == UpdateWhere(old(store.teams), TeamKey, {teamId}, ResetScore)
      ensures confirmed ==>
                store.completions == Without(old(store.completions), CompletionKey,
                                             CompletionIds(OfTeam(CompletionsOfEvent(old(store.completions), eventId), teamId)))
    {
      if !confirmed { return; }
      store.UpdateTeam(teamId, ResetScore);
      store.DeleteCompletions(OfTeam(CompletionsOfEvent(store.completions, eventId), teamId));
    }
  }

  /** After a reset every team of the event has a zero score and no
      completed tiles, and teams of other events are untouched. */
  lemma ResetZeroesEventTeams(ts: seq<Team>, eventId: Id)
    requires UniqueTeamIds(ts)
    ensures var r := UpdateWhere(ts, TeamKey, TeamIds(TeamsOfEvent(ts, eventId)), ResetScore);
            forall i :: 0 <= i < |ts| ==>
              if ts[i].eventId == eventId then r[i].totalPoints == Some(0) && r[i].completedTiles == []
              else r[i] == ts[i]
  {
  }

  /** After a reset, no completion of the event is left. */
  lemma ResetClearsEvent(cs: seq<Completion>, eventId: Id)
    ensures forall c :: c in Without(cs, CompletionKey, CompletionIds(CompletionsOfEvent(cs, eventId))) ==>
              c.eventId != eventId
  {
  }

  function FindEvent(es: seq<BingoEvent>, id: Id): (r: Option<BingoEvent>)
    ensures r.Some? ==> r.value in es && r.value.id == id
    ensures r.None? ==> forall e :: e in es ==> e.id != id
  {
    if es == [] then None
    else if es[0].id == id then Some(es[0])
    else FindEvent(es[1..], id)
  }
}
