/** The board component: grid geometry of the row-major tile list, the
    completion that marks a tile, blocked-tile lookup over both stored
    entry shapes, and the rule that decides whether a mystery tile may be
    revealed. */
module Board {
  import opened Common
  import opened Entities

  // ---------------------------------------------------------------------
  // Board size

  /** Smallest k >= from whose square reaches n. */
  function CeilSqrtFrom(n: nat, from: nat): (k: nat)
    requires from == 0 || (from - 1) * (from - 1) < n
    ensures k * k >= n
    ensures k == 0 || (k - 1) * (k - 1) < n
    decreases n - from
  {
    if from * from >= n then from
    else CeilSqrtFrom(n, from + 1)
  }

  /** `Math.ceil(Math.sqrt(tiles.length)) || 5`: the side of the smallest
      square grid that holds n tiles, or 5 when there are none. */
  function BoardSize(n: nat): (k: nat)
    ensures n == 0 ==> k == 5
    ensures n > 0 ==> k >= 1 && k * k >= n && (k - 1) * (k - 1) < n
  {
    if n == 0 then 5 else CeilSqrtFrom(n, 0)
  }

  lemma SquareMonotone(a: nat, b: nat)
    requires a <= b
    ensures a * a <= b * b
  {
    assert a * a <= a * b by { assert a * (b - a) >= 0; }
    assert a * b <= b * b by { assert (b - a) * b >= 0; }
  }

  /** A board of m * m tiles is drawn m tiles wide. */
  lemma {:induction false} BoardSizeOfSquare(m: nat)
    requires m >= 1
    ensures BoardSize(m * m) == m
  {
    var k := BoardSize(m * m);
    if k < m {
      SquareMonotone(k, m - 1);
    } else if k > m {
      SquareMonotone(m, k - 1);
    }
  }

  // ---------------------------------------------------------------------
  // Adjacency

  /** `Math.floor(id / size)` and `id % size` with JavaScript's remainder,
      which takes the sign of the dividend. */
  function Row(id: int, size: nat): int
    requires size >= 1
  {
    id / size
  }

  function Col(id: int, size: nat): int
    requires size >= 1
  {
    if id >= 0 then id % size else -((-id) % size)
  }

  /** The list `getAdjacentTileIds` builds: up, down, left, right, each only
      when it stays on the board. */
  function Neighbours(id: int, size: nat): (r: seq<int>)
    requires size >= 1
    ensures |r| <= 4
  {
    (if Row(id, size) > 0 then [id - size] else [])
    + (if Row(id, size) < size - 1 then [id + size] else [])
    + (if Col(id, size) > 0 then [id - 1] else [])
    + (if Col(id, size) < size - 1 then [id + 1] else [])
  }

  /** `getAdjacentTileIds`: pushes each neighbour that stays on the board. */
  method GetAdjacentTileIds(id: int, size: nat) returns (adjacent: seq<int>)
    requires size >= 1
    ensures adjacent == Neighbours(id, size)
  {
    var row := Row(id, size);
    var col := Col(id, size);
    adjacent := [];
    if row > 0 { adjacent := adjacent + [id - size]; }
    if row < size - 1 { adjacent := adjacent + [id + size]; }
    if col > 0 { adjacent := adjacent + [id - 1]; }
    if col < size - 1 { adjacent := adjacent + [id + 1]; }
  }

  /** Two cells of a size-wide grid share a side. */
  predicate GridAdjacent(a: int, b: int, size: nat)
    requires size >= 1
  {
    0 <= a < size * size && 0 <= b < size * size &&
    ((Row(a, size) == Row(b, size) && (Col(a, size) - Col(b, size) == 1 || Col(b, size) - Col(a, size) == 1)) ||
     (Col(a, size) == Col(b, size) && (Row(a, size) - Row(b, size) == 1 || Row(b, size) - Row(a, size) == 1)))
  }

  lemma MulMonotone(a: int, b: int, size: nat)
    requires a <= b
    ensures a * size <= b * size
  {
    assert (b - a) * size >= 0;
  }

  lemma RowColOnBoard(id: int, size: nat)
    requires size >= 1 && 0 <= id < size * size
    ensures 0 <= Row(id, size) < size && 0 <= Col(id, size) < size
    ensures id == Row(id, size) * size + Col(id, size)
  {
  }

  lemma UpIsAdjacent(id: int, size: nat)
    requires size >= 1 && 0 <= id < size * size && Row(id, size) > 0
    ensures GridAdjacent(id, id - size, size)
  {
    RowColOnBoard(id, size);
    DivModUnique(id - size, size, Row(id, size) - 1, Col(id, size));
  }

  lemma DownIsAdjacent(id: int, size: nat)
    requires size >= 1 && 0 <= id < size * size && Row(id, size) < size - 1
    ensures GridAdjacent(id, id + size, size)
  {
    var r, c := Row(id, size), Col(id, size);
    RowColOnBoard(id, size);
    DivModUnique(id + size, size, r + 1, c);
    MulMonotone(r + 2, size, size);
    assert id + size < (r + 2) * size;
  }

  lemma LeftIsAdjacent(id: int, size: nat)
    requires size >= 1 && 0 <= id < size * size && Col(id, size) > 0
    ensures GridAdjacent(id, id - 1, size)
  {
    RowColOnBoard(id, size);
    DivModUnique(id - 1, size, Row(id, size), Col(id, size) - 1);
  }

  lemma RightIsAdjacent(id: int, size: nat)
    requires size >= 1 && 0 <= id < size * size && Col(id, size) < size - 1
    ensures GridAdjacent(id, id + 1, size)
  {
    var r := Row(id, size);
    RowColOnBoard(id, size);
    DivModUnique(id + 1, size, r, Col(id, size) + 1);
    MulMonotone(r + 1, size, size);
    assert id + 1 < (r + 1) * size;
  }

  lemma AdjacentIsNeighbour(id: int, j: int, size: nat)
    requires size >= 1 && GridAdjacent(id, j, size)
    ensures j in Neighbours(id, size)
  {
    var r, rj := Row(id, size), Row(j, size);
    RowColOnBoard(id, size);
    RowColOnBoard(j, size);
    AdjacentRows(r, size);
    if rj == r + 1 {
      assert j == id + size;
    } else if rj == r - 1 {
      assert j == id - size;
    }
  }

  /** The rows above and below start one width away. */
  lemma AdjacentRows(r: int, size: int)
    ensures (r + 1) * size == r * size + size && (r - 1) * size == r * size - size
  {
  }

  /** Every neighbour of a cell on the board is on the board and shares a
      side with it, and every cell sharing a side is listed: adjacency
      never wraps around a row or column edge. */
  lemma NeighboursAreGridAdjacent(id: int, j: int, size: nat)
    requires size >= 1 && 0 <= id < size * size
    ensures j in Neighbours(id, size) <==> GridAdjacent(id, j, size)
  {
    if j in Neighbours(id, size) {
      if j == id - size && Row(id, size) > 0 {
        UpIsAdjacent(id, size);
      } else if j == id + size && Row(id, size) < size - 1 {
        DownIsAdjacent(id, size);
      } else if j == id - 1 && Col(id, size) > 0 {
        LeftIsAdjacent(id, size);
      } else {
        RightIsAdjacent(id, size);
      }
    }
    if GridAdjacent(id, j, size) {
      AdjacentIsNeighbour(id, j, size);
    }
  }

  /** Adjacency is symmetric. */
  lemma NeighboursSymmetric(a: int, b: int, size: nat)
    requires size >= 1 && 0 <= a < size * size && 0 <= b < size * size
    ensures a in Neighbours(b, size) <==> b in Neighbours(a, size)
  {
    NeighboursAreGridAdjacent(a, b, size);
    NeighboursAreGridAdjacent(b, a, size);
  }

  /** Every neighbour of a cell on the board is on the board. */
  lemma NeighboursInRange(id: int, size: nat)
    requires size >= 1 && 0 <= id < size * size
    ensures forall j :: j in Neighbours(id, size) ==> 0 <= j < size * size
  {
    forall j | j in Neighbours(id, size) ensures 0 <= j < size * size {
      NeighboursAreGridAdjacent(id, j, size);
    }
  }

  // ---------------------------------------------------------------------
  // Completions on the board

  predicate MarksTile(c: Completion, tileId: int)
  {
    c.tileId == tileId && c.status == Approved
  }

  /** `getCompletionForTile`: the first approved completion of the tile. */
  function CompletionForTile(cs: seq<Completion>, tileId: int): (r: Option<Completion>)
    ensures r.None? <==> forall k :: 0 <= k < |cs| ==> !MarksTile(cs[k], tileId)
    ensures r.Some? ==> exists k :: 0 <= k < |cs| && cs[k] == r.value && MarksTile(cs[k], tileId) &&
                          forall j :: 0 <= j < k ==> !MarksTile(cs[j], tileId)
  {
    if cs == [] then None
    else if MarksTile(cs[0], tileId) then Some(cs[0])
    else
      var r := CompletionForTile(cs[1..], tileId);
      assert forall k :: 1 <= k < |cs| ==> cs[k] == cs[1..][k - 1];
      if r.Some? then
        var k :| 0 <= k < |cs[1..]| && cs[1..][k] == r.value && MarksTile(cs[1..][k], tileId) &&
                 forall j :: 0 <= j < k ==> !MarksTile(cs[1..][j], tileId);
        assert cs[k + 1] == r.value;
        assert forall j :: 0 <= j < k + 1 ==> !MarksTile(cs[j], tileId) by {
          forall j | 0 <= j < k + 1 ensures !MarksTile(cs[j], tileId) {
            if j > 0 { assert cs[j] == cs[1..][j - 1]; }
          }
        }
        r
      else r
  }

  /** Appending completions never changes which completion marks a tile
      that was already marked. */
  lemma {:induction false} CompletionForTileAppend(cs: seq<Completion>, more: seq<Completion>, tileId: int)
    requires CompletionForTile(cs, tileId).Some?
    ensures CompletionForTile(cs + more, tileId) == CompletionForTile(cs, tileId)
  {
    if !MarksTile(cs[0], tileId) {
      assert (cs + more)[1..] == cs[1..] + more;
      CompletionForTileAppend(cs[1..], more, tileId);
    }
  }

  /** `getTeamColor`: the team's colour, or grey for an unknown team or a
      team without one. */
  function TeamColor(teams: seq<Team>, teamId: Id): (r: string)
    ensures FindTeam(teams, teamId).None? ==> r == "#888888"
    ensures var t := FindTeam(teams, teamId);
            t.Some? && t.value.color.Some? && t.value.color.value != "" ==> r == t.value.color.value
    ensures var t := FindTeam(teams, teamId);
            t.Some? && (t.value.color.None? || t.value.color.value == "") ==> r == "#888888"
    ensures (exists t :: t in teams && t.id == teamId) && r != "#888888" ==>
              FindTeam(teams, teamId).value.color == Some(r)
  {
    var t := FindTeam(teams, teamId);
    if t.Some? then OrElse(t.value.color, "#888888") else "#888888"
  }

  // ---------------------------------------------------------------------
  // Blocked tiles

  datatype BlockedInfo = BlockedInfo(isBlocked: bool, blockerColor: Option<string>)

  /** The colour an entry reports: red for a bare id, else the blocker's
      (which an entry written for a team without a colour lacks). */
  function EntryColor(b: BlockedEntry): Option<string>
  {
    match b
    case Legacy(_) => Some("#ef4444")
    case Marked(_, color) => color
  }

  /** `getBlockedInfo`: scans the viewing team's entries and stops at the
      first one naming the tile. */
  method GetBlockedInfo(currentTeam: Option<Team>, tileId: int) returns (info: BlockedInfo)
    ensures var bs := if currentTeam.Some? then currentTeam.value.blockedTiles else [];
      && (info.isBlocked <==> exists k :: 0 <= k < |bs| && bs[k].tileId == tileId)
      && (info.isBlocked ==>
            exists k :: 0 <= k < |bs| && bs[k].tileId == tileId &&
              (forall j :: 0 <= j < k ==> bs[j].tileId != tileId) && info.blockerColor == EntryColor(bs[k]))
      && (!info.isBlocked ==> info.blockerColor.None?)
  {
    var blockedTiles := if currentTeam.Some? then currentTeam.value.blockedTiles else [];
    var i := 0;
    while i < |blockedTiles|
      invariant 0 <= i <= |blockedTiles|
      invariant forall j :: 0 <= j < i ==> blockedTiles[j].tileId != tileId
    {
      var blocked := blockedTiles[i];
      if blocked.Legacy? && blocked.tileId == tileId {
        return BlockedInfo(true, Some("#ef4444"));
      }
      if blocked.Marked? && blocked.tileId == tileId {
        return BlockedInfo(true, blocked.blockerColor);
      }
      i := i + 1;
    }
    return BlockedInfo(false, None);
  }

  /** Whether some entry of either shape names the tile (the test the
      event page runs before adding a block). */
  predicate IsBlocked(bs: seq<BlockedEntry>, tileId: int)
  {
    exists k :: 0 <= k < |bs| && bs[k].tileId == tileId
  }

  // ---------------------------------------------------------------------
  // Mystery reveal

  /** The first approved completion of the tile belongs to the team. */
  predicate OwnedBy(cs: seq<Completion>, tileId: int, teamId: Option<Id>)
  {
    var c := CompletionForTile(cs, tileId);
    c.Some? && teamId == Some(c.value.teamId)
  }

  /** `adjacentIds.some(...)`. */
  function AnyOwned(ids: seq<int>, cs: seq<Completion>, teamId: Option<Id>): (r: bool)
    ensures r <==> exists k :: 0 <= k < |ids| && OwnedBy(cs, ids[k], teamId)
  {
    if ids == [] then false
    else if OwnedBy(cs, ids[0], teamId) then true
    else
      var r := AnyOwned(ids[1..], cs, teamId);
      assert forall k :: 1 <= k < |ids| ==> ids[k] == ids[1..][k - 1];
      assert r ==> exists k :: 0 <= k < |ids| && OwnedBy(cs, ids[k], teamId) by {
        if r {
          var k :| 0 <= k < |ids[1..]| && OwnedBy(cs, ids[1..][k], teamId);
          assert ids[k + 1] == ids[1..][k];
        }
      }
      r
  }

  /** `canRevealMystery` for a board `size` tiles wide, seen by the team
      with id `teamId` (none when no team is selected). */
  function CanRevealMystery(tile: Tile, size: nat, cs: seq<Completion>, teamId: Option<Id>): (r: bool)
    requires size >= 1
    ensures !tile.isMystery || tile.revealed ==> !r
    ensures tile.isMystery && !tile.revealed ==>
              (r <==> exists j :: j in Neighbours(tile.id, size) && OwnedBy(cs, j, teamId))
  {
    if !tile.isMystery || tile.revealed then false
    else
      var ids := Neighbours(tile.id, size);
      assert (exists k :: 0 <= k < |ids| && OwnedBy(cs, ids[k], teamId)) <==>
             (exists j :: j in ids && OwnedBy(cs, j, teamId));
      AnyOwned(ids, cs, teamId)
  }

  /** With no team selected nothing can be revealed. */
  lemma CanRevealNeedsTeam(tile: Tile, size: nat, cs: seq<Completion>)
    requires size >= 1
    ensures !CanRevealMystery(tile, size, cs, None)
  {
  }

  /** Once every neighbour's first approved completion belongs to other
      teams, appending completions (a steal copies an already approved
      completion) never lets the team reveal the tile. */
  lemma {:induction false} AppendKeepsRevealClosed(tile: Tile, size: nat, cs: seq<Completion>, more: seq<Completion>, teamId: Option<Id>)
    requires size >= 1
    requires forall j :: j in Neighbours(tile.id, size) ==> CompletionForTile(cs, j).Some?
    requires !CanRevealMystery(tile, size, cs, teamId)
    ensures !CanRevealMystery(tile, size, cs + more, teamId)
  {
    if tile.isMystery && !tile.revealed {
      forall j | j in Neighbours(tile.id, size)
        ensures !OwnedBy(cs + more, j, teamId)
      {
        CompletionForTileAppend(cs, more, j);
      }
    }
  }
}
