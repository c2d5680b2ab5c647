/** The row of powerup buttons on the event page. */
module PowerupBarView {
  import opened Common
  import opened Entities

  /** The buttons, in display order. */
  const Catalogue: seq<string> := [DoublePointsKey, RevealMysteryKey, StealCompletionKey, BlockTileKey]

  /** `teamPowerups?.[id] || 0`: no counters, or no counter of that kind,
      reads as 0. */
  function Count(teamPowerups: Option<map<string, int>>, id: string): (r: int)
    ensures teamPowerups.None? ==> r == 0
    ensures teamPowerups.Some? && id !in teamPowerups.value ==> r == 0
    ensures teamPowerups.Some? && id in teamPowerups.value ==> r == teamPowerups.value[id]
  {
    if teamPowerups.None? then 0 else PowerupCount(teamPowerups.value, id)
  }

  /** `disabled={count === 0 || disabled}`. */
  predicate ButtonDisabled(teamPowerups: Option<map<string, int>>, id: string, disabled: bool)
  {
    Count(teamPowerups, id) == 0 || disabled
  }

  /** A click: the button's own `count > 0` test, then `handleUsePowerup`,
      which forwards the id only with a positive count on an enabled bar. */
  function Click(teamPowerups: Option<map<string, int>>, id: string, disabled: bool): (forwarded: Option<string>)
    ensures forwarded.Some? <==> Count(teamPowerups, id) > 0 && !disabled
    ensures forwarded.Some? ==> forwarded.value == id
  {
    var count := Count(teamPowerups, id);
    if count > 0 && !disabled then Some(id) else None
  }

  /** A forwarded click always comes from an enabled button, and an
      enabled button with a negative count forwards nothing. */
  lemma ClickNeedsEnabledButton(teamPowerups: Option<map<string, int>>, id: string, disabled: bool)
    ensures Click(teamPowerups, id, disabled).Some? ==> !ButtonDisabled(teamPowerups, id, disabled)
    ensures Count(teamPowerups, id) < 0 ==> !ButtonDisabled(teamPowerups, id, disabled) || disabled
    ensures Count(teamPowerups, id) < 0 ==> Click(teamPowerups, id, disabled).None?
  {
  }
}
