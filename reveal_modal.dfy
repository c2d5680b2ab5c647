/** The "reveal mystery tile" dialog: the hidden tiles it offers, their
    labels, and what a confirmed choice hands to the event page. */
module RevealMysteryDialog {
  import opened Common
  import opened Entities
  import Event = BingoEventPage

  /** `t.is_mystery && !t.revealed`. */
  predicate IsHiddenMystery(t: Tile)
  {
    t.isMystery && !t.revealed
  }

  /** `mysteryTiles`, in board order. */
  function MysteryTiles(tiles: seq<Tile>): seq<Tile>
  {
    Keep(tiles, IsHiddenMystery)
  }

  /** The offered tiles are exactly the unrevealed mystery tiles, in the
      order of the board, and the "No mystery tiles to reveal" message shows
      exactly when there are none. */
  lemma MysteryTilesExact(tiles: seq<Tile>, more: seq<Tile>)
    ensures forall t :: t in MysteryTiles(tiles) <==> t in tiles && t.isMystery && !t.revealed
    ensures MysteryTiles(tiles) == [] <==> forall t :: t in tiles ==> !(t.isMystery && !t.revealed)
    ensures MysteryTiles(tiles + more) == MysteryTiles(tiles) + MysteryTiles(more)
  {
    var r := MysteryTiles(tiles);
    forall t | t in r ensures t in tiles && IsHiddenMystery(t) {
      var i :| 0 <= i < |r| && r[i] == t;
    }
    forall t | t in tiles && IsHiddenMystery(t) ensures t in r {
      var i :| 0 <= i < |tiles| && tiles[i] == t;
    }
    if r != [] {
      assert r[0] in r;
    }
    KeepAppend(tiles, more, IsHiddenMystery);
  }

  /** After the event page reveals a chosen tile, no tile with that id is
      offered any more, and every other tile is offered exactly as before. */
  lemma RevealedTileLeavesList(tiles: seq<Tile>, id: int)
    ensures forall t :: t in MysteryTiles(Event.RevealTile(tiles, id)) ==> t.id != id
    ensures forall t: Tile :: t.id != id ==> (t in MysteryTiles(Event.RevealTile(tiles, id)) <==> t in MysteryTiles(tiles))
  {
    var r := Event.RevealTile(tiles, id);
    MysteryTilesExact(tiles, []);
    MysteryTilesExact(r, []);
    forall t: Tile | t.id != id && t in tiles ensures t in r {
      var i :| 0 <= i < |tiles| && tiles[i] == t;
    }
    forall t: Tile | t.id != id && t in r ensures t in tiles {
      var i :| 0 <= i < |r| && r[i] == t;
    }
    forall t | t in r && t.id == id ensures t.revealed {
      var i :| 0 <= i < |r| && r[i] == t;
    }
  }

  /** `Tile #{Number(tile.id) + 1}`. */
  function TileLabel(id: int): string
  {
    "Tile #" + IntToString(id + 1)
  }

  /** The label names the tile's one-based position, */
  lemma TileLabelReadsBack(id: nat)
    ensures |TileLabel(id)| > 6 && TileLabel(id)[..6] == "Tile #" && DigitsValue(TileLabel(id)[6..]) == id + 1
  {
    assert TileLabel(id)[6..] == NatToString(id + 1);
    NatToStringRoundTrip(id + 1);
  }

  /** and distinct tiles get distinct labels. */
  lemma TileLabelsDistinct(id: int, other: int)
    requires id != other
    ensures TileLabel(id) != TileLabel(other)
  {
    if TileLabel(id) == TileLabel(other) {
      assert TileLabel(id)[6..] == IntToString(id + 1);
      assert TileLabel(other)[6..] == IntToString(other + 1);
      IntToStringInjective(id + 1, other + 1);
    }
  }

  class RevealDialog {
    var selected: Option<Tile>

    constructor()
      ensures selected.None?
    {
      selected := None;
    }

    /** `disabled={!selectedTile}`. */
    predicate ConfirmDisabled()
      reads this
    {
      selected.None?
    }

    /** A click on the k-th offered tile. */
    method Select(tiles: seq<Tile>, k: nat)
      requires k < |MysteryTiles(tiles)|
      modifies this`selected
      ensures selected == Some(MysteryTiles(tiles)[k])
      ensures selected.value in tiles && selected.value.isMystery && !selected.value.revealed
    {
      selected := Some(MysteryTiles(tiles)[k]);
    }

    /** `handleReveal`: without a selection nothing happens; otherwise the
        selected tile goes to `onReveal` once and the selection is cleared. */
    method Confirm() returns (sent: Option<Tile>)
      modifies this`selected
      ensures sent == old(selected)
      ensures sent.Some? <==> !old(ConfirmDisabled())
      ensures selected.None?
    {
      sent := selected;
      selected := None;
    }
  }
}
