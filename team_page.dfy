/** A team's own page: its submissions split by status, its points counted
    from approved submissions, the customisation form and the pinned
    announcement, and who may edit them. */
module TeamPageView {
  import opened Common
  import opened Entities
  import opened Store
  import Scoring

  /** The page's completion query, `TileCompletion.filter({ team_id })`, and
      the two lists it shows. */
  function TeamCompletions(all: seq<Completion>, teamId: Id): seq<Completion>
  {
    OfTeam(all, teamId)
  }

  function ApprovedList(all: seq<Completion>, teamId: Id): seq<Completion>
  {
    WithStatus(TeamCompletions(all, teamId), Approved)
  }

  function PendingList(all: seq<Completion>, teamId: Id): seq<Completion>
  {
    WithStatus(TeamCompletions(all, teamId), Pending)
  }

  /** `approvedCompletions.reduce((sum, c) => sum + (c.points_awarded || 0), 0)`. */
  function PagePoints(all: seq<Completion>, teamId: Id): int
  {
    PointsSum(ApprovedList(all, teamId))
  }

  /** The lists hold exactly the team's approved and pending submissions;
      the points shown are the team's recomputed total, which matches the
      cached `total_points` exactly when the team is consistent; "Tiles
      Completed" counts the approved submissions. */
  lemma PageFigures(all: seq<Completion>, team: Team)
    ensures forall c :: c in ApprovedList(all, team.id) <==> c in all && c.teamId == team.id && c.status == Approved
    ensures forall c :: c in PendingList(all, team.id) <==> c in all && c.teamId == team.id && c.status == Pending
    ensures PagePoints(all, team.id) == Scoring.ApprovedPoints(all, team.id)
    ensures PagePoints(all, team.id) == OrZero(team.totalPoints) <==> Scoring.Consistent(team, all)
  {
    Scoring.ApprovedPointsIsFilteredSum(all, team.id);
  }

  /** `event?.tiles?.find(t => t.id === tileId)?.task || 'Unknown tile'`. */
  function TileTask(event: Option<BingoEvent>, tileId: int): (r: string)
    ensures event.Some? && FindTile(event.value.tiles, tileId).Some? && FindTile(event.value.tiles, tileId).value.task != ""
            ==> r == FindTile(event.value.tiles, tileId).value.task
    ensures event.None? || (forall t :: t in event.value.tiles ==> t.id != tileId) ==> r == "Unknown tile"
    ensures r != ""
  {
    if event.None? then "Unknown tile" else TaskOf(event.value.tiles, tileId)
  }

  /** `user?.email`. */
  function EmailOf(user: Option<User>): Option<string>
  {
    if user.Some? then user.value.email else None
  }

  /** `team?.captain_email === user?.email`: two absent values compare
      equal. */
  predicate IsCaptain(team: Team, user: Option<User>)
  {
    team.captainEmail == EmailOf(user)
  }

  predicate IsAdmin(user: Option<User>)
  {
    user.Some? && user.value.role == Some("admin")
  }

  /** The customise and pin controls. */
  predicate CanEdit(team: Team, user: Option<User>)
  {
    IsCaptain(team, user) || IsAdmin(user)
  }

  /** A signed-in member with an e-mail may edit exactly when that e-mail is
      the captain's or the member is an admin; a team without a captain
      e-mail (every team the creation form makes) shows the controls to a
      visitor who is not signed in. */
  lemma EditPermission(team: Team, user: Option<User>)
    ensures user.Some? && user.value.email.Some? ==>
              (CanEdit(team, user) <==> team.captainEmail == user.value.email || user.value.role == Some("admin"))
    ensures team.captainEmail.None? && user.None? ==> CanEdit(team, user)
    ensures team.captainEmail.Some? && user.None? ==> !CanEdit(team, user)
  {
  }

  /** The "pin announcement" button: an editor, and nothing pinned yet. */
  predicate OffersPin(team: Team, user: Option<User>)
  {
    CanEdit(team, user) && (team.pinnedMessage.None? || team.pinnedMessage.value == "")
  }

  /** `x || team?.x`: an edited value, or the stored one when the edit is
      empty. */
  function Edited(edit: string, stored: Option<string>): (r: Option<string>)
    ensures edit != "" ==> r == Some(edit)
    ensures edit == "" ==> r == stored
  {
    if edit != "" then Some(edit) else stored
  }

  /** The record patch `handleSaveCustomization` sends, built from the
      page's copy `team`. */
  function Customization(team: Team, name: string, banner: string, icon: string): Team -> Team
  {
    (u: Team) => u.(name := Edited(name, team.name), bannerUrl := Edited(banner, team.bannerUrl),
                    iconUrl := Edited(icon, team.iconUrl))
  }

  /** Saving never blanks a field: each of name, banner and icon becomes the
      edited value when one was typed and stays as stored otherwise, and no
      other field changes. */
  lemma CustomizationKeepsStored(team: Team, name: string, banner: string, icon: string)
    ensures var r := Customization(team, name, banner, icon)(team);
            && (r.name == if name != "" then Some(name) else team.name)
            && (r.bannerUrl == if banner != "" then Some(banner) else team.bannerUrl)
            && (r.iconUrl == if icon != "" then Some(icon) else team.iconUrl)
            && r.(name := team.name, bannerUrl := team.bannerUrl, iconUrl := team.iconUrl) == team
    ensures Customization(team, "", "", "")(team) == team
  {
  }

  /** `handleSaveCustomization`. */
  method SaveCustomization(store: Store, team: Team, name: string, banner: string, icon: string)
    modifies store`teams
    ensures store.teams == UpdateWhere(old(store.teams), TeamKey, {team.id}, Customization(team, name, banner, icon))
  {
    store.UpdateTeam(team.id, Customization(team, name, banner, icon));
  }

  function SetPinned(message: string): Team -> Team
  {
    (u: Team) => u.(pinnedMessage := Some(message))
  }

  /** `handleSavePinnedMessage`; "Remove Pin" saves the empty message. */
  method SavePinnedMessage(store: Store, teamId: Id, message: string)
    modifies store`teams
    ensures store.teams == UpdateWhere(old(store.teams), TeamKey, {teamId}, SetPinned(message))
  {
    store.UpdateTeam(teamId, SetPinned(message));
  }
}
