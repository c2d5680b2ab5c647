/** One cell of the board as drawn: which face it shows, the blocked
    overlay, and which clicks reach the event page. */
module BingoTileView {
  import opened Common
  import opened Entities
  import Board

  /** `tile.is_mystery && !tile.revealed`: the cell hides its task and
      points behind the mystery face. */
  predicate ShowsMysteryFace(tile: Tile)
  {
    tile.isMystery && !tile.revealed
  }

  /** The click handler: a blocked cell swallows the click; any other cell
      passes its tile on (ids are already numbers, so the `Number` coercion
      changes nothing). */
  function Click(tile: Tile, isBlocked: bool): (forwarded: Option<Tile>)
    ensures forwarded.Some? <==> !isBlocked
    ensures forwarded.Some? ==> forwarded.value == tile
  {
    if isBlocked then None else Some(tile)
  }

  /** The colour of the ban icon over a blocked cell,
      `blockerColor || '#ef4444'`; an unblocked cell has no overlay. */
  function OverlayColor(isBlocked: bool, blockerColor: Option<string>): (r: Option<string>)
    ensures r.Some? <==> isBlocked
    ensures r.Some? ==> r.value != ""
  {
    if isBlocked then Some(OrElse(blockerColor, "#ef4444")) else None
  }

  /** The overlay over a cell the board finds blocked: red for a bare-id
      entry and for an entry without a usable colour, the blocking team's
      colour otherwise. */
  lemma OverlayOfEntry(b: BlockedEntry)
    ensures OverlayColor(true, Board.EntryColor(b)) ==
              Some(if b.Marked? && b.blockerColor.Some? && b.blockerColor.value != "" then b.blockerColor.value else "#ef4444")
  {
  }

  /** "Click to reveal" under the mystery face. */
  predicate ShowsRevealHint(tile: Tile, canReveal: bool)
  {
    ShowsMysteryFace(tile) && canReveal
  }

  /** With `canReveal` computed by the board, the hint shows exactly when
      the viewing team may reveal the cell. */
  lemma RevealHintMeansRevealable(tile: Tile, size: nat, cs: seq<Completion>, teamId: Option<Id>)
    requires size >= 1
    ensures ShowsRevealHint(tile, Board.CanRevealMystery(tile, size, cs, teamId)) <==> Board.CanRevealMystery(tile, size, cs, teamId)
    ensures !ShowsMysteryFace(tile) ==> !ShowsRevealHint(tile, Board.CanRevealMystery(tile, size, cs, teamId))
  {
  }
}
