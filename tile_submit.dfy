/** The "submit completion" dialog: the player name, the uploaded
    screenshot, the double-points flag (held by the event page and shared
    with the dialog) and what a submit hands to the event page. */
module TileSubmitDialog {
  import opened Common
  import opened Entities
  import Event = BingoEventPage

  /** The object passed to `onSubmit`. */
  datatype Payload = Payload(tileId: int, points: int, playerName: string, screenshotUrl: string, usedDoublePoints: bool)

  /** `team?.powerups?.double_points > 0`: the double-points option is
      offered. */
  predicate HasDoublePowerup(team: Option<Team>)
  {
    team.Some? && PowerupCount(team.value.powerups, DoublePointsKey) > 0
  }

  /** `useDoublePowerup ? tile?.points * 2 : tile?.points`. */
  function FinalPoints(points: int, useDouble: bool): int
  {
    if useDouble then points * 2 else points
  }

  /** The option is offered exactly when the event page's spend of a
      double-points use would take effect, and that spend leaves the
      counter at zero or above. */
  lemma DoubleOfferedMeansSpendable(t: Team, now: int)
    ensures HasDoublePowerup(Some(t)) <==> Event.SpendPowerup(t, DoublePointsKey, now) != t
    ensures HasDoublePowerup(Some(t)) ==>
              PowerupCount(Event.SpendPowerup(t, DoublePointsKey, now).powerups, DoublePointsKey)
                == PowerupCount(t.powerups, DoublePointsKey) - 1 >= 0
  {
  }

  /** The points the dialog announces are the points the event page then
      records on the pending completion built from the payload. */
  lemma FinalPointsRecorded(p: Payload, id: Id, eventId: Id, teamId: Id, now: int)
    ensures var c := Event.Submission(id, eventId, teamId, p.tileId, p.points, p.playerName, p.screenshotUrl,
                                      p.usedDoublePoints, now);
            Awarded(c) == FinalPoints(p.points, p.usedDoublePoints) && c.status == Pending
            && c.tileId == p.tileId && c.playerName == p.playerName && c.screenshotUrl == p.screenshotUrl
    ensures p.points >= 0 ==> FinalPoints(p.points, p.usedDoublePoints) >= p.points
  {
  }

  class SubmitForm {
    var playerName: string
    var hasScreenshot: bool
    var screenshotUrl: string
    var uploading: bool
    var useDouble: bool

    constructor(useDouble: bool)
      ensures playerName == "" && !hasScreenshot && screenshotUrl == "" && !uploading && this.useDouble == useDouble
    {
      playerName := "";
      hasScreenshot := false;
      screenshotUrl := "";
      uploading := false;
      this.useDouble := useDouble;
    }

    /** `handleFileUpload` once the upload service has answered: the file's
        URL, or `None` when the upload failed, which leaves the form as it
        was. */
    method FinishUpload(uploaded: Option<string>)
      modifies this`screenshotUrl, this`hasScreenshot, this`uploading
      ensures uploaded.Some? ==> screenshotUrl == uploaded.value && hasScreenshot
      ensures uploaded.None? ==> screenshotUrl == old(screenshotUrl) && hasScreenshot == old(hasScreenshot)
      ensures !uploading
    {
      if uploaded.Some? {
        screenshotUrl := uploaded.value;
        hasScreenshot := true;
      }
      uploading := false;
    }

    /** `handleSubmit`: with a name, a screenshot URL and a tile it returns
        the payload and clears the form and the double-points flag;
        otherwise it returns nothing and changes nothing. */
    method Submit(tile: Option<Tile>) returns (sent: Option<Payload>)
      modifies this`playerName, this`hasScreenshot, this`screenshotUrl, this`useDouble
      ensures old(playerName) == "" || old(screenshotUrl) == "" || tile.None? ==>
                sent.None? && playerName == old(playerName) && screenshotUrl == old(screenshotUrl)
                && hasScreenshot == old(hasScreenshot) && useDouble == old(useDouble)
      ensures old(playerName) != "" && old(screenshotUrl) != "" && tile.Some? ==>
                && sent == Some(Payload(tile.value.id, tile.value.points, old(playerName), old(screenshotUrl), old(useDouble)))
                && playerName == "" && screenshotUrl == "" && !hasScreenshot && !useDouble
    {
      if playerName == "" || screenshotUrl == "" || tile.None? {
        return None;
      }
      sent := Some(Payload(tile.value.id, tile.value.points, playerName, screenshotUrl, useDouble));
      playerName := "";
      hasScreenshot := false;
      screenshotUrl := "";
      useDouble := false;
    }
  }
}
