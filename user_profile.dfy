/** A player's profile page: totals over the player's approved
    completions, the earned badges, choosing the displayed badge, and the
    recent-completions list. */
module UserProfilePage {
  import opened Common
  import opened Entities
  import opened Store
  import Stats = PlayerStatsPage
  import Setup = ProfileSetupDialog

  /** `completions.reduce((sum, c) => sum + (c.points_awarded || 0), 0)`. */
  function TotalPoints(cs: seq<Completion>): int
  {
    PointsSum(cs)
  }

  /** `new Set(completions.map(c => c.event_id))`. */
  function EventIds(cs: seq<Completion>): set<Id>
  {
    set c | c in cs :: c.eventId
  }

  /** On the player's own approved completions the profile totals are the
      stats page's totals for that name. */
  lemma {:induction false} TotalsMatchStats(cs: seq<Completion>, name: string)
    requires forall i :: 0 <= i < |cs| ==> cs[i].playerName == name
    ensures TotalPoints(cs) == Stats.PlayerPoints(cs, name)
    ensures |cs| == Stats.PlayerTiles(cs, name)
    ensures EventIds(cs) == Stats.PlayerEvents(cs, name)
  {
    if cs != [] {
      var n := |cs| - 1;
      TotalsMatchStats(cs[..n], name);
      assert cs == cs[..n] + [cs[n]];
      PointsSumAppend(cs[..n], [cs[n]]);
      assert PointsSum([cs[n]]) == Awarded(cs[n]) by {
        assert [cs[n]][1..] == [];
      }
      assert EventIds(cs) == EventIds(cs[..n]) + {cs[n].eventId} by {
        assert forall c :: c in cs <==> c in cs[..n] || c == cs[n];
      }
    }
  }

  /** The chain of `earnedBadges.push` calls; each badge stands for its
      id string (`Stats.BadgeId`). The chain lists exactly the catalogue's
      badges whose threshold is met by the profile's own totals, the event
      count being a number here, in catalogue order. */
  method EarnedBadges(tilesCompleted: int, totalPoints: int, eventsParticipated: int) returns (earned: seq<Stats.Badge>)
    ensures earned == Stats.EarnedBadges(tilesCompleted, totalPoints, eventsParticipated)
  {
    earned := [];
    ghost var before := earned;
    if tilesCompleted >= 1 { earned := earned + [Stats.FirstTile]; }
    ChainStep(before, Stats.FirstTile, tilesCompleted, totalPoints, eventsParticipated);
    before := earned;
    if tilesCompleted >= 10 { earned := earned + [Stats.TenTiles]; }
    ChainStep(before, Stats.TenTiles, tilesCompleted, totalPoints, eventsParticipated);
    before := earned;
    if tilesCompleted >= 50 { earned := earned + [Stats.FiftyTiles]; }
    ChainStep(before, Stats.FiftyTiles, tilesCompleted, totalPoints, eventsParticipated);
    before := earned;
    if totalPoints >= 100 { earned := earned + [Stats.HundredPoints]; }
    ChainStep(before, Stats.HundredPoints, tilesCompleted, totalPoints, eventsParticipated);
    before := earned;
    if totalPoints >= 500 { earned := earned + [Stats.FiveHundredPoints]; }
    ChainStep(before, Stats.FiveHundredPoints, tilesCompleted, totalPoints, eventsParticipated);
    before := earned;
    if eventsParticipated >= 1 { earned := earned + [Stats.FirstEvent]; }
    ChainStep(before, Stats.FirstEvent, tilesCompleted, totalPoints, eventsParticipated);
    before := earned;
    if eventsParticipated >= 5 { earned := earned + [Stats.FiveEvents]; }
    ChainStep(before, Stats.FiveEvents, tilesCompleted, totalPoints, eventsParticipated);
    ChainComplete(earned, tilesCompleted, totalPoints, eventsParticipated);
  }

  lemma ChainComplete(earned: seq<Stats.Badge>, tiles: int, points: int, events: int)
    requires ChainUpTo(earned, 7, tiles, points, events)
    ensures earned == Stats.EarnedBadges(tiles, points, events)
  {
    Stats.SameBadges(earned, Stats.EarnedBadges(tiles, points, events));
  }

  /** After the pushes for the badges ranked below `k`: exactly the earned
      badges of those ranks, in catalogue order. */
  ghost predicate ChainUpTo(earned: seq<Stats.Badge>, k: nat, tiles: int, points: int, events: int)
  {
    && (forall x :: x in earned <==> Stats.Threshold(x, tiles, points, events) && Stats.Rank(x) < k)
    && Stats.InBadgeOrder(earned)
  }

  lemma ChainStep(before: seq<Stats.Badge>, x: Stats.Badge, tiles: int, points: int, events: int)
    requires ChainUpTo(before, Stats.Rank(x), tiles, points, events)
    ensures ChainUpTo(if Stats.Threshold(x, tiles, points, events) then before + [x] else before,
                      Stats.Rank(x) + 1, tiles, points, events)
  {
    var after := if Stats.Threshold(x, tiles, points, events) then before + [x] else before;
    forall y ensures y in after <==> Stats.Threshold(y, tiles, points, events) && Stats.Rank(y) < Stats.Rank(x) + 1 {
      assert Stats.Rank(y) == Stats.Rank(x) ==> y == x;
    }
    forall i, j | 0 <= i < j < |after| ensures Stats.Rank(after[i]) < Stats.Rank(after[j]) {
      if j < |before| {
      } else {
        assert before[i] in before;
      }
    }
  }

  /** Badges are cumulative: a higher threshold of a kind implies the
      lower one. */
  lemma BadgesMonotone(tiles: int, points: int, events: int)
    ensures var bs := Stats.EarnedBadges(tiles, points, events);
            && (Stats.TenTiles in bs ==> Stats.FirstTile in bs)
            && (Stats.FiftyTiles in bs ==> Stats.TenTiles in bs)
            && (Stats.FiveHundredPoints in bs ==> Stats.HundredPoints in bs)
            && (Stats.FiveEvents in bs ==> Stats.FirstEvent in bs)
  {
  }

  /** The two pages disagree for every player with an approved
      completion: the profile, counting events as a number, shows "Event
      Rookie"; the statistics row for the same name, whose badges come from
      the tally, does not. */
  lemma ProfileShowsEventRookie(cs: seq<Completion>, name: string)
    requires cs != []
    requires forall i :: 0 <= i < |cs| ==> cs[i].playerName == name
    ensures Stats.FirstEvent in Stats.EarnedBadges(|cs|, TotalPoints(cs), |EventIds(cs)|)
    ensures Stats.FirstEvent !in Stats.TallyBadges(Stats.PlayerTiles(cs, name), Stats.PlayerPoints(cs, name))
  {
    var events := EventIds(cs);
    assert cs[0].eventId in events by {
      assert cs[0] in cs;
    }
    assert events != {};
    Stats.TallyBadgesDropEventBadges(|cs|, TotalPoints(cs), |events|);
    assert !Stats.ThresholdOnTally(Stats.FirstEvent, Stats.PlayerTiles(cs, name), Stats.PlayerPoints(cs, name));
  }

  /** `currentProfile && currentProfile.username === displayName`. */
  predicate IsOwnProfile(current: Option<Profile>, displayName: string)
  {
    current.Some? && current.value.username == Some(displayName)
  }

  /** What a click on a badge asks to store: nothing unless it is the
      viewer's own profile and the badge is earned; the badge, or no badge
      when it was already the displayed one. */
  function BadgeClick(current: Option<Profile>, displayName: string, earned: seq<string>, badgeId: string)
    : (r: Option<Option<string>>)
    ensures r.Some? <==> IsOwnProfile(current, displayName) && badgeId in earned
    ensures r.Some? ==> r.value == (if current.value.selectedBadge == Some(badgeId) then None else Some(badgeId))
  {
    if IsOwnProfile(current, displayName) && badgeId in earned then
      Some(if current.value.selectedBadge == Some(badgeId) then None else Some(badgeId))
    else None
  }

  /** A click never stores a badge that is not earned, and clicking the
      same badge twice restores the original choice when that was the
      badge or nothing. */
  lemma BadgeClickTwice(p: Profile, displayName: string, earned: seq<string>, badgeId: string)
    requires IsOwnProfile(Some(p), displayName) && badgeId in earned
    requires p.selectedBadge == None || p.selectedBadge == Some(badgeId)
    ensures var once := BadgeClick(Some(p), displayName, earned, badgeId).value;
            (once == None || once.value in earned)
            && BadgeClick(Some(p.(selectedBadge := once)), displayName, earned, badgeId) == Some(p.selectedBadge)
  {
  }

  function SetSelectedBadge(b: Option<string>): Profile -> Profile
  {
    (p: Profile) => p.(selectedBadge := b)
  }

  /** The badge button: writes the requested choice to the viewer's
      profile record. */
  method ClickBadge(store: Store, current: Option<Profile>, displayName: string, earned: seq<string>, badgeId: string)
    modifies store`profiles
    ensures var r := BadgeClick(current, displayName, earned, badgeId);
            if r.Some? then store.profiles == UpdateWhere(old(store.profiles), ProfileKey, {current.value.id}, SetSelectedBadge(r.value))
            else store.profiles == old(store.profiles)
  {
    var r := BadgeClick(current, displayName, earned, badgeId);
    if r.Some? {
      store.UpdateProfile(current.value.id, SetSelectedBadge(r.value));
    }
  }

  function SetUsername(name: string): Profile -> Profile
  {
    (p: Profile) => p.(username := Some(name))
  }

  /** The name editor's save: disabled for a blank name; otherwise the
      viewer's profile record takes the typed name as it stands. */
  method UpdateDisplayName(store: Store, current: Profile, name: string)
    modifies store`profiles
    ensures Trim(name) == "" ==> store.profiles == old(store.profiles)
    ensures Trim(name) != "" ==> store.profiles == UpdateWhere(old(store.profiles), ProfileKey, {current.id}, SetUsername(name))
  {
    if Trim(name) != "" {
      store.UpdateProfile(current.id, SetUsername(name));
    }
  }

  /** The renamed record carries the new name, so the page the save
      redirects to is again the viewer's own; every other record is
      unchanged. */
  lemma RenameKeepsOwnProfile(ps: seq<Profile>, k: nat, name: string)
    requires k < |ps|
    ensures var after := UpdateWhere(ps, ProfileKey, {ps[k].id}, SetUsername(name));
            && IsOwnProfile(Some(after[k]), name)
            && after[k] == ps[k].(username := Some(name))
            && forall i :: 0 <= i < |ps| && ps[i].id != ps[k].id ==> after[i] == ps[i]
  {
  }

  /** Unlike the setup dialog, a rename does not check that the name is
      free: renaming a profile to the name another profile holds leaves two
      profiles with that name. */
  lemma RenameCanDuplicate(ps: seq<Profile>, k: nat, j: nat, name: string)
    requires k < |ps| && j < |ps| && ps[j].id != ps[k].id && ps[j].username == Some(name)
    ensures !Setup.UniqueUsernames(UpdateWhere(ps, ProfileKey, {ps[k].id}, SetUsername(name)))
  {
    var after := UpdateWhere(ps, ProfileKey, {ps[k].id}, SetUsername(name));
    assert after[k].username == Some(name) && after[j].username == Some(name);
    if j < k {
      assert after[j].username.Some? && after[j].username == after[k].username;
    } else {
      assert after[k].username.Some? && after[k].username == after[j].username;
    }
  }

  /** `completions.slice(0, 20)`: the first twenty, in order. */
  function Recent(cs: seq<Completion>): (r: seq<Completion>)
    ensures |r| <= 20 && |r| <= |cs| && r == cs[..|r|]
    ensures |cs| <= 20 ==> r == cs
  {
    Take(cs, 20)
  }
}
