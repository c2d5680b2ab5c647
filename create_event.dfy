/** The event-creation form: the tile list with its board-size check, the
    team list with its bounds and defaults, and the creation of the event
    and its team records. */
module CreateEventPage {
  import opened Common
  import opened Entities
  import opened Store
  import Board
  import Bar = PowerupBarView

  /** `teamColors`. */
  const Palette: seq<string> :=
    ["#e74c3c", "#3498db", "#2ecc71", "#f39c12", "#9b59b6", "#1abc9c", "#e91e63", "#00bcd4"]

  const MaxTeams: nat := 8
  const MinTeams: nat := 2

  /** The "new tile" inputs. */
  datatype NewTile = NewTile(task: string, points: int, difficulty: Difficulty, isMystery: bool, isDoublePoints: bool)

  /** What the inputs are reset to after a tile is added. */
  const BlankTile: NewTile := NewTile("", 10, Medium, false, false)

  /** The tile `addTile` appends at position `id`. */
  function TileOf(d: NewTile, id: int): (t: Tile)
    ensures t.id == id && t.task == d.task && t.points == d.points && t.difficulty == d.difficulty
    ensures t.tileType == (if d.isDoublePoints then DoublePoints else if d.isMystery then MysteryType else Normal)
    ensures t.isMystery == d.isMystery && t.revealed == !d.isMystery
  {
    Tile(id, d.task, d.points, d.difficulty,
         if d.isDoublePoints then DoublePoints else if d.isMystery then MysteryType else Normal,
         d.isMystery, !d.isMystery)
  }

  /** `maxTiles`: a full square board. */
  function MaxTiles(boardSize: nat): nat
  {
    boardSize * boardSize
  }

  predicate IdsArePositions(tiles: seq<Tile>)
  {
    forall i :: 0 <= i < |tiles| ==> tiles[i].id == i
  }

  /** `addTile`: the new tile list and the new inputs. */
  function AddTile(tiles: seq<Tile>, d: NewTile, boardSize: nat): (r: (seq<Tile>, NewTile))
    ensures Trim(d.task) == [] || |tiles| >= MaxTiles(boardSize) ==> r == (tiles, d)
    ensures Trim(d.task) != [] && |tiles| < MaxTiles(boardSize) ==>
              |r.0| == |tiles| + 1 && r.0[..|tiles|] == tiles && r.0[|tiles|] == TileOf(d, |tiles|) && r.1 == BlankTile
  {
    if Trim(d.task) == [] then (tiles, d)
    else if |tiles| >= MaxTiles(boardSize) then (tiles, d)
    else (tiles + [TileOf(d, |tiles|)], BlankTile)
  }

  /** Adding keeps ids equal to positions and never grows the list past a
      full board. */
  lemma AddTileKeepsShape(tiles: seq<Tile>, d: NewTile, boardSize: nat)
    requires IdsArePositions(tiles)
    ensures IdsArePositions(AddTile(tiles, d, boardSize).0)
    ensures |tiles| <= MaxTiles(boardSize) ==> |AddTile(tiles, d, boardSize).0| <= MaxTiles(boardSize)
  {
  }

  /** `list.map((tile, i) => ({ ...tile, id: i }))`. */
  function Reindexed(tiles: seq<Tile>): seq<Tile>
  {
    seq(|tiles|, i requires 0 <= i < |tiles| => tiles[i].(id := i))
  }

  /** `removeTile(index)`: drops the tile at `index` (none when the index is
      out of range) and renumbers the rest. */
  function RemoveTile(tiles: seq<Tile>, index: int): (r: seq<Tile>)
    ensures |r| == if 0 <= index < |tiles| then |tiles| - 1 else |tiles|
    ensures IdsArePositions(r)
    ensures forall i :: 0 <= i < |r| ==>
              r[i] == (if 0 <= index <= i then tiles[i + 1] else tiles[i]).(id := i)
  {
    Reindexed(if 0 <= index < |tiles| then tiles[..index] + tiles[index + 1..] else tiles)
  }

  /** Removing the tile just added gives back the list before the add. */
  lemma RemoveUndoesAdd(tiles: seq<Tile>, d: NewTile, boardSize: nat)
    requires IdsArePositions(tiles)
    requires Trim(d.task) != [] && |tiles| < MaxTiles(boardSize)
    ensures RemoveTile(AddTile(tiles, d, boardSize).0, |tiles|) == tiles
  {
    var r := RemoveTile(AddTile(tiles, d, boardSize).0, |tiles|);
    assert forall i :: 0 <= i < |r| ==> r[i] == tiles[i];
  }

  /** The check `createEvent` makes before writing anything. */
  predicate BoardComplete(tiles: seq<Tile>, boardSize: nat)
  {
    |tiles| == MaxTiles(boardSize)
  }

  /** A complete board of a chosen size (the form offers 3 to 7) is drawn
      by the event page at that same size. */
  lemma CompleteBoardHasChosenSize(tiles: seq<Tile>, boardSize: nat)
    requires 3 <= boardSize <= 7 && BoardComplete(tiles, boardSize)
    ensures Board.BoardSize(|tiles|) == boardSize
  {
    Board.BoardSizeOfSquare(boardSize);
  }

  /** A team as the form holds it. */
  datatype TeamDraft = TeamDraft(name: string, color: string, members: seq<string>)

  const InitialTeams: seq<TeamDraft> := [TeamDraft("Team 1", Palette[0], []), TeamDraft("Team 2", Palette[1], [])]

  /** `addTeam`. */
  function AddTeam(teams: seq<TeamDraft>): (r: seq<TeamDraft>)
    ensures |teams| >= MaxTeams ==> r == teams
    ensures |teams| < MaxTeams ==>
              r == teams + [TeamDraft("Team " + NatToString(|teams| + 1), Palette[|teams| % |Palette|], [])]
  {
    if |teams| >= MaxTeams then teams
    else teams + [TeamDraft("Team " + NatToString(|teams| + 1), Palette[|teams| % |Palette|], [])]
  }

  /** `removeTeam(index)`. */
  function RemoveTeam(teams: seq<TeamDraft>, index: int): (r: seq<TeamDraft>)
    ensures |teams| <= MinTeams ==> r == teams
    ensures |teams| > MinTeams && 0 <= index < |teams| ==> r == teams[..index] + teams[index + 1..]
    ensures |teams| > MinTeams && !(0 <= index < |teams|) ==> r == teams
  {
    if |teams| <= MinTeams then teams
    else if 0 <= index < |teams| then teams[..index] + teams[index + 1..]
    else teams
  }

  /** The form always holds between two and eight teams. */
  lemma TeamCountBounded(teams: seq<TeamDraft>, index: int)
    requires MinTeams <= |teams| <= MaxTeams
    ensures MinTeams <= |AddTeam(teams)| <= MaxTeams
    ensures MinTeams <= |RemoveTeam(teams, index)| <= MaxTeams
    ensures |AddTeam(teams)| == |teams| + 1 || |teams| == MaxTeams
  {
  }

  /** Adding teams to the initial two hands out the palette in order, so
      such teams have distinct colours. */
  lemma {:induction false} AddedTeamsTakePalette(n: nat)
    requires n <= MaxTeams - 2
    ensures var ts := AddTeams(InitialTeams, n);
            |ts| == n + 2 && forall i :: 0 <= i < |ts| ==> ts[i].color == Palette[i]
  {
    if n > 0 {
      AddedTeamsTakePalette(n - 1);
      AddTeamTakesNextColour(AddTeams(InitialTeams, n - 1));
    }
  }

  lemma AddTeamTakesNextColour(teams: seq<TeamDraft>)
    requires |teams| < MaxTeams && forall i :: 0 <= i < |teams| ==> teams[i].color == Palette[i]
    ensures |AddTeam(teams)| == |teams| + 1
    ensures forall i :: 0 <= i < |AddTeam(teams)| ==> AddTeam(teams)[i].color == Palette[i]
  {
    var r := AddTeam(teams);
    assert |teams| % |Palette| == |teams|;
    forall i | 0 <= i < |r| ensures r[i].color == Palette[i] {
      if i < |teams| {
        assert r[i] == teams[i];
      }
    }
  }

  function AddTeams(teams: seq<TeamDraft>, n: nat): seq<TeamDraft>
  {
    if n == 0 then teams else AddTeam(AddTeams(teams, n - 1))
  }

  /** Colours follow the list length, not the colours in use: removing the
      first of three teams and adding one gives two teams the same colour. */
  lemma RemoveThenAddRepeatsColour()
    ensures var ts := RemoveTeam(AddTeam(InitialTeams), 0);
            var r := AddTeam(ts);
            |r| == 3 && r[1].color == r[2].color
  {
    AddedTeamsTakePalette(1);
  }

  datatype DraftField = NameField | ColorField

  /** `updateTeam(index, field, value)`: the team object at `index` is
      changed in place. */
  method UpdateTeam(teams: array<TeamDraft>, index: nat, field: DraftField, value: string)
    requires index < teams.Length
    modifies teams
    ensures teams[..] == old(teams[..])[index := match field
                                                case NameField => old(teams[index]).(name := value)
                                                case ColorField => old(teams[index]).(color := value)]
  {
    match field
    case NameField => teams[index] := teams[index].(name := value);
    case ColorField => teams[index] := teams[index].(color := value);
  }

  /** The form fields `createEvent` reads; dates are already timestamps. */
  datatype EventForm = EventForm(
    name: string,
    description: string,
    template: string,
    startTime: int,
    endTime: int,
    boardSize: nat,
    tiles: seq<Tile>,
    teams: seq<TeamDraft>)

  function InitialStatus(startTime: int, now: int): (r: EventStatus)
    ensures r == Upcoming <==> startTime > now
    ensures r != Completed
  {
    if startTime > now then Upcoming else Active
  }

  function NewEvent(form: EventForm, eventId: Id, now: int): BingoEvent
  {
    BingoEvent(eventId, form.name, form.description, form.template, form.startTime, form.endTime,
               InitialStatus(form.startTime, now), form.tiles)
  }

  /** The powerups a created team starts with. */
  const StartingPowerups: map<string, int> := map[DoublePointsKey := 2, StealTileKey := 1, BlockTileKey := 1]

  function DefaultTeam(d: TeamDraft, eventId: Id, id: Id): (t: Team)
    ensures t.totalPoints == Some(0) && t.completedTiles == [] && t.blockedTiles == []
    ensures t.name == Some(d.name) && t.color == Some(d.color) && t.members == d.members && t.eventId == eventId
  {
    Team(id, eventId, Some(d.name), Some(d.color), d.members, Some(0), [], StartingPowerups, map[], [],
         None, None, None, None)
  }

  /** A created team holds two double-points uses and one block, but no
      reveal and no steal: the steal it is given is stored under
      `steal_tile`, a key the event page never spends. */
  lemma StartingCounts(d: TeamDraft, eventId: Id, id: Id)
    ensures var t := DefaultTeam(d, eventId, id);
            && PowerupCount(t.powerups, DoublePointsKey) == 2
            && PowerupCount(t.powerups, BlockTileKey) == 1
            && PowerupCount(t.powerups, StealTileKey) == 1
            && PowerupCount(t.powerups, RevealMysteryKey) == 0
            && PowerupCount(t.powerups, StealCompletionKey) == 0
  {
  }

  /** The `steal_tile` use a created team is given has no button: the
      powerup bar lists four powerups and `steal_tile` is not among them. */
  lemma CreatedStealHasNoButton(d: TeamDraft, eventId: Id, id: Id)
    ensures PowerupCount(DefaultTeam(d, eventId, id).powerups, StealTileKey) == 1
    ensures StealTileKey !in Bar.Catalogue && |Bar.Catalogue| == 4
  {
  }

  datatype CreateResult = Created(event: BingoEvent) | NeedTiles(required: nat, boardSize: nat)

  /** `createEvent`: refuses an incomplete board; otherwise creates the
      event, then one team record per draft, in order. Ids come from the
      backend and are passed in. */
  method CreateEvent(store: Store, form: EventForm, now: int, eventId: Id, teamId: nat -> Id) returns (r: CreateResult)
    modifies store`events, store`teams
    ensures !BoardComplete(form.tiles, form.boardSize) ==>
              r == NeedTiles(MaxTiles(form.boardSize), form.boardSize) &&
              store.events == old(store.events) && store.teams == old(store.teams)
    ensures BoardComplete(form.tiles, form.boardSize) ==>
              && r == Created(NewEvent(form, eventId, now))
              && store.events == old(store.events) + [r.event]
              && store.teams == old(store.teams) +
                   seq(|form.teams|, i requires 0 <= i < |form.teams| => DefaultTeam(form.teams[i], eventId, teamId(i)))
  {
    if !BoardComplete(form.tiles, form.boardSize) {
      return NeedTiles(MaxTiles(form.boardSize), form.boardSize);
    }
    var event := NewEvent(form, eventId, now);
    store.CreateEvent(event);
    var i := 0;
    while i < |form.teams|
      invariant 0 <= i <= |form.teams|
      invariant store.events == old(store.events) + [event]
      invariant store.teams == old(store.teams) +
                  seq(i, j requires 0 <= j < i => DefaultTeam(form.teams[j], eventId, teamId(j)))
    {
      store.CreateTeam(DefaultTeam(form.teams[i], eventId, teamId(i)));
      i := i + 1;
    }
    return Created(event);
  }
}
