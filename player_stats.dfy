/** The player statistics page: per-player totals over approved
    completions, the badge catalogue, search and badge filters, sorting,
    and the admin's stat resets. */
module PlayerStatsPage {
  import opened Common
  import opened Entities
  import opened Store
  import Sorting

  // ---------------------------------------------------------------------
  // Badges

  datatype Badge = FirstTile | TenTiles | FiftyTiles | HundredPoints | FiveHundredPoints | FirstEvent | FiveEvents

  /** `BADGES`, in display order. */
  const Badges: seq<Badge> := [FirstTile, TenTiles, FiftyTiles, HundredPoints, FiveHundredPoints, FirstEvent, FiveEvents]

  function BadgeId(b: Badge): string
  {
    match b
    case FirstTile => "first_tile"
    case TenTiles => "ten_tiles"
    case FiftyTiles => "fifty_tiles"
    case HundredPoints => "hundred_points"
    case FiveHundredPoints => "five_hundred_points"
    case FirstEvent => "first_event"
    case FiveEvents => "five_events"
  }

  /** The badge's position in `BADGES`. */
  function Rank(b: Badge): nat
  {
    match b
    case FirstTile => 0
    case TenTiles => 1
    case FiftyTiles => 2
    case HundredPoints => 3
    case FiveHundredPoints => 4
    case FirstEvent => 5
    case FiveEvents => 6
  }

  predicate Threshold(b: Badge, tiles: int, points: int, events: int)
  {
    match b
    case FirstTile => tiles >= 1
    case TenTiles => tiles >= 10
    case FiftyTiles => tiles >= 50
    case HundredPoints => points >= 100
    case FiveHundredPoints => points >= 500
    case FirstEvent => events >= 1
    case FiveEvents => events >= 5
  }

  /** The filter condition `b.threshold(player)` as a value. */
  function Meets(tiles: int, points: int, events: int): Badge -> bool
  {
    b => Threshold(b, tiles, points, events)
  }

  predicate InBadgeOrder(bs: seq<Badge>)
  {
    forall i, j :: 0 <= i < j < |bs| ==> Rank(bs[i]) < Rank(bs[j])
  }

  lemma KeepInBadgeOrder(bs: seq<Badge>, p: Badge -> bool)
    requires InBadgeOrder(bs)
    ensures InBadgeOrder(Keep(bs, p))
  {
    var key: Badge -> int := b => Rank(b);
    KeepIncreasing(bs, key, p);
  }

  predicate Increasing<T>(s: seq<T>, key: T -> int)
  {
    forall i, j :: 0 <= i < j < |s| ==> key(s[i]) < key(s[j])
  }

  /** Filtering a list whose keys strictly increase keeps them increasing. */
  lemma {:induction false} KeepIncreasing<T>(s: seq<T>, key: T -> int, p: T -> bool)
    requires Increasing(s, key)
    ensures Increasing(Keep(s, p), key)
  {
    if s != [] {
      var tail := s[1..];
      HeadBelowTail(s, key);
      KeepIncreasing(tail, key, p);
      if p(s[0]) {
        var rest := Keep(tail, p);
        forall y | y in rest ensures key(s[0]) < key(y) {
          var k :| 0 <= k < |rest| && rest[k] == y;
        }
        ConsIncreasing(s[0], rest, key);
      }
    }
  }

  lemma HeadBelowTail<T>(s: seq<T>, key: T -> int)
    requires s != [] && Increasing(s, key)
    ensures Increasing(s[1..], key)
    ensures forall y :: y in s[1..] ==> key(s[0]) < key(y)
  {
    var tail := s[1..];
    forall i, j | 0 <= i < j < |tail| ensures key(tail[i]) < key(tail[j]) {
      assert tail[i] == s[i + 1] && tail[j] == s[j + 1];
    }
    forall y | y in tail ensures key(s[0]) < key(y) {
      var k :| 0 <= k < |tail| && tail[k] == y;
      assert s[k + 1] == y;
    }
  }

  lemma ConsIncreasing<T>(x: T, rest: seq<T>, key: T -> int)
    requires Increasing(rest, key) && forall y :: y in rest ==> key(x) < key(y)
    ensures Increasing([x] + rest, key)
  {
    var r := [x] + rest;
    forall i, j | 0 <= i < j < |r| ensures key(r[i]) < key(r[j]) {
      assert r[j] == rest[j - 1] && r[j] in rest;
      if i > 0 {
        assert r[i] == rest[i - 1];
      }
    }
  }

  /** Every badge sits in `BADGES` at its rank, and the catalogue is in
      rank order. */
  lemma BadgeCatalogue()
    ensures forall b :: b in Badges
    ensures InBadgeOrder(Badges)
  {
    forall b ensures b in Badges {
      assert Badges[Rank(b)] == b;
    }
  }

  /** Filtering a list that holds every badge keeps exactly the badges
      satisfying the filter. */
  lemma KeepComplete(bs: seq<Badge>, p: Badge -> bool)
    requires forall b :: b in bs
    ensures forall b :: b in Keep(bs, p) <==> p(b)
  {
    var r := Keep(bs, p);
    forall b | p(b) ensures b in r {
      assert b in bs;
      var i :| 0 <= i < |bs| && bs[i] == b;
    }
  }

  /** `BADGES.filter(b => b.threshold(player))`: exactly the badges whose
      threshold holds, in catalogue order, each once. */
  function EarnedBadges(tiles: int, points: int, events: int): (r: seq<Badge>)
    ensures forall b :: b in r <==> Threshold(b, tiles, points, events)
    ensures InBadgeOrder(r)
  {
    var p := Meets(tiles, points, events);
    BadgeCatalogue();
    KeepInBadgeOrder(Badges, p);
    KeepComplete(Badges, p);
    Keep(Badges, p)
  }

  predicate IsEventBadge(b: Badge)
  {
    b == FirstEvent || b == FiveEvents
  }

  /** `b.threshold(player)` as the statistics page evaluates it: `player`
      is the tally, whose `events` is still a `Set`, and comparing a `Set`
      with a number compares NaN. The two event thresholds therefore never
      hold; the others see the same totals as `Threshold`, which ignores
      the event count for them. */
  predicate ThresholdOnTally(b: Badge, tiles: int, points: int)
  {
    !IsEventBadge(b) && Threshold(b, tiles, points, 0)
  }

  /** The badge list the statistics page computes for a tally: the
      catalogue filtered by `ThresholdOnTally`. */
  function TallyBadges(tiles: int, points: int): (r: seq<Badge>)
    ensures forall b :: b in r <==> ThresholdOnTally(b, tiles, points)
    ensures InBadgeOrder(r)
  {
    var p := (b: Badge) => ThresholdOnTally(b, tiles, points);
    BadgeCatalogue();
    KeepInBadgeOrder(Badges, p);
    KeepComplete(Badges, p);
    Keep(Badges, p)
  }

  /** The statistics page's list is the intended list without the event
      badges, whatever the event count; a player with an event earns
      "Event Rookie" by the thresholds but is never shown it there. */
  lemma TallyBadgesDropEventBadges(tiles: int, points: int, events: int)
    ensures forall b :: b in TallyBadges(tiles, points) <==> b in EarnedBadges(tiles, points, events) && !IsEventBadge(b)
    ensures events >= 1 ==> FirstEvent in EarnedBadges(tiles, points, events) && FirstEvent !in TallyBadges(tiles, points)
    ensures events >= 5 ==> FiveEvents in EarnedBadges(tiles, points, events) && FiveEvents !in TallyBadges(tiles, points)
  {
  }

  lemma HeadIsMember<T>(s: seq<T>)
    ensures s != [] ==> s[0] in s
  {
  }

  /** Two lists in catalogue order holding the same badges are equal. */
  lemma {:induction false} SameBadges(a: seq<Badge>, b: seq<Badge>)
    requires InBadgeOrder(a) && InBadgeOrder(b)
    requires forall x :: x in a <==> x in b
    ensures a == b
  {
    if a != [] {
      assert a[0] in b && b[0] in a;
      assert a[0] == b[0] by {
        assert Rank(a[0]) == Rank(b[0]) ==> a[0] == b[0];
      }
      forall x ensures x in a[1..] <==> x in b[1..] {
        if x in a[1..] {
          var i :| 0 <= i < |a| - 1 && a[1..][i] == x;
          assert a[i + 1] == x && x in b;
          var j :| 0 <= j < |b| && b[j] == x;
          assert b[1..][j - 1] == x;
        }
        if x in b[1..] {
          var j :| 0 <= j < |b| - 1 && b[1..][j] == x;
          assert b[j + 1] == x && x in a;
          var i :| 0 <= i < |a| && a[i] == x;
          assert a[1..][i - 1] == x;
        }
      }
      SameBadges(a[1..], b[1..]);
      assert a == [a[0]] + a[1..] && b == [b[0]] + b[1..];
    } else {
      HeadIsMember(b);
    }
  }

  // ---------------------------------------------------------------------
  // Aggregation

  /** The per-name totals over a list of completions, each defined on its
      own so the page's running sums can be checked against them. */
  function PlayerPoints(cs: seq<Completion>, name: string): int
  {
    if cs == [] then 0
    else PlayerPoints(cs[..|cs| - 1], name) + (if cs[|cs| - 1].playerName == name then Awarded(cs[|cs| - 1]) else 0)
  }

  function PlayerTiles(cs: seq<Completion>, name: string): nat
  {
    if cs == [] then 0
    else PlayerTiles(cs[..|cs| - 1], name) + (if cs[|cs| - 1].playerName == name then 1 else 0)
  }

  function PlayerEvents(cs: seq<Completion>, name: string): set<Id>
  {
    if cs == [] then {}
    else PlayerEvents(cs[..|cs| - 1], name) + (if cs[|cs| - 1].playerName == name then {cs[|cs| - 1].eventId} else {})
  }

  function Names(cs: seq<Completion>): set<string>
  {
    set c | c in cs :: c.playerName
  }

  /** The `stats[name]` entry while it is being built. */
  datatype Tally = Tally(name: string, points: int, tiles: nat, events: set<Id>)

  /** A row of the table. */
  datatype PlayerStat = PlayerStat(name: string, points: int, tiles: nat, events: nat, badges: seq<Badge>)

  predicate DistinctNames(ts: seq<Tally>)
  {
    forall i, j :: 0 <= i < j < |ts| ==> ts[i].name != ts[j].name
  }

  function TallyNames(ts: seq<Tally>): set<string>
  {
    set t | t in ts :: t.name
  }

  function SumTiles(ts: seq<Tally>): nat
  {
    if ts == [] then 0 else SumTiles(ts[..|ts| - 1]) + ts[|ts| - 1].tiles
  }

  lemma {:induction false} SumTilesUpdate(ts: seq<Tally>, k: nat, t: Tally)
    requires k < |ts|
    ensures SumTiles(ts[k := t]) == SumTiles(ts) - ts[k].tiles + t.tiles
  {
    var n := |ts| - 1;
    if k < n {
      assert ts[k := t][..n] == ts[..n][k := t];
      SumTilesUpdate(ts[..n], k, t);
    } else {
      assert ts[k := t][..n] == ts[..n];
    }
  }

  /** `stats[name]`: the position of the name's entry, or -1. */
  function IndexOfName(ts: seq<Tally>, name: string): (k: int)
    ensures -1 <= k < |ts|
    ensures k >= 0 ==> ts[k].name == name
    ensures k < 0 ==> name !in TallyNames(ts)
  {
    if ts == [] then -1
    else if ts[|ts| - 1].name == name then |ts| - 1
    else IndexOfName(ts[..|ts| - 1], name)
  }

  function Finish(t: Tally): PlayerStat
  {
    PlayerStat(t.name, t.points, t.tiles, |t.events|, TallyBadges(t.tiles, t.points))
  }

  function SumStatTiles(ps: seq<PlayerStat>): nat
  {
    if ps == [] then 0 else SumStatTiles(ps[..|ps| - 1]) + ps[|ps| - 1].tiles
  }

  lemma {:induction false} FinishKeepsTiles(ts: seq<Tally>)
    ensures SumStatTiles(Rows(ts)) == SumTiles(ts)
  {
    if ts != [] {
      var n := |ts| - 1;
      assert Rows(ts)[..n] == Rows(ts[..n]);
      FinishKeepsTiles(ts[..n]);
    }
  }

  /** Each entry holds its name's totals over `cs`. */
  predicate AgreesWith(ts: seq<Tally>, cs: seq<Completion>)
  {
    forall k :: 0 <= k < |ts| ==>
      ts[k] == Tally(ts[k].name, PlayerPoints(cs, ts[k].name), PlayerTiles(cs, ts[k].name), PlayerEvents(cs, ts[k].name))
  }

  /** The entries agree with the per-name totals of `cs`, one entry per
      distinct name, and their tile counts add up to `|cs|`. */
  predicate TalliesOf(ts: seq<Tally>, cs: seq<Completion>)
  {
    DistinctNames(ts) && TallyNames(ts) == Names(cs) && AgreesWith(ts, cs) && SumTiles(ts) == |cs|
  }

  function Bumped(t: Tally, c: Completion): Tally
  {
    Tally(t.name, t.points + Awarded(c), t.tiles + 1, t.events + {c.eventId})
  }

  /** One `forEach` step: the entry of the completion's player is created
      at zero if missing, then its points, tiles and events are bumped. */
  function Count(ts: seq<Tally>, c: Completion): seq<Tally>
  {
    var k := IndexOfName(ts, c.playerName);
    if k < 0 then
      var grown := ts + [Tally(c.playerName, 0, 0, {})];
      grown[|ts| := Bumped(grown[|ts|], c)]
    else ts[k := Bumped(ts[k], c)]
  }

  lemma TotalsStep(cs: seq<Completion>, c: Completion, m: string)
    ensures PlayerPoints(cs + [c], m) == PlayerPoints(cs, m) + (if c.playerName == m then Awarded(c) else 0)
    ensures PlayerTiles(cs + [c], m) == PlayerTiles(cs, m) + (if c.playerName == m then 1 else 0)
    ensures PlayerEvents(cs + [c], m) == PlayerEvents(cs, m) + (if c.playerName == m then {c.eventId} else {})
    ensures Names(cs + [c]) == Names(cs) + {c.playerName}
  {
    assert (cs + [c])[..|cs|] == cs;
  }

  /** Bumping the entry of the completion's player, when every entry
      agrees with `cs`, gives entries that agree with `cs + [c]`. */
  lemma BumpStep(g: seq<Tally>, cs: seq<Completion>, c: Completion, at: nat)
    requires DistinctNames(g) && AgreesWith(g, cs) && at < |g| && g[at].name == c.playerName
    requires TallyNames(g) == Names(cs) + {c.playerName} && SumTiles(g) == |cs|
    ensures DistinctNames(g[at := Bumped(g[at], c)])
    ensures TallyNames(g[at := Bumped(g[at], c)]) == Names(cs + [c])
    ensures AgreesWith(g[at := Bumped(g[at], c)], cs + [c])
    ensures SumTiles(g[at := Bumped(g[at], c)]) == |cs + [c]|
  {
    var r := g[at := Bumped(g[at], c)];
    forall k | 0 <= k < |r|
      ensures r[k] == Tally(r[k].name, PlayerPoints(cs + [c], r[k].name), PlayerTiles(cs + [c], r[k].name),
                            PlayerEvents(cs + [c], r[k].name))
    {
      TotalsStep(cs, c, r[k].name);
    }
    TotalsStep(cs, c, c.playerName);
    SumTilesUpdate(g, at, r[at]);
    SameNameKeepsNames(g, at, r[at]);
  }

  /** Replacing an entry by one of the same name keeps the names. */
  lemma SameNameKeepsNames(g: seq<Tally>, at: nat, t: Tally)
    requires at < |g| && t.name == g[at].name
    ensures TallyNames(g[at := t]) == TallyNames(g)
    ensures DistinctNames(g) ==> DistinctNames(g[at := t])
  {
    var r := g[at := t];
    forall x | x in TallyNames(g) ensures x in TallyNames(r) {
      var u :| u in g && u.name == x;
      var j :| 0 <= j < |g| && g[j] == u;
      assert r[j] in r;
    }
    forall x | x in TallyNames(r) ensures x in TallyNames(g) {
      var u :| u in r && u.name == x;
      var j :| 0 <= j < |r| && r[j] == u;
      assert g[j] in g;
    }
  }

  lemma CountStep(ts: seq<Tally>, cs: seq<Completion>, c: Completion)
    requires TalliesOf(ts, cs)
    ensures TalliesOf(Count(ts, c), cs + [c])
  {
    var k := IndexOfName(ts, c.playerName);
    if k < 0 {
      NewNameStep(ts, cs, c);
    } else {
      BumpStep(ts, cs, c, k);
    }
  }

  /** A first completion of a new name opens its entry at the end. */
  lemma NewNameStep(ts: seq<Tally>, cs: seq<Completion>, c: Completion)
    requires TalliesOf(ts, cs) && IndexOfName(ts, c.playerName) < 0
    ensures TalliesOf(Count(ts, c), cs + [c])
  {
    var n := c.playerName;
    AbsentName(cs, n);
    var grown := ts + [Tally(n, 0, 0, {})];
    assert grown[..|ts|] == ts;
    assert TallyNames(grown) == TallyNames(ts) + {n};
    BumpStep(grown, cs, c, |ts|);
  }

  /** The `playerStats` memo with the object's keys taken as a plain map:
      one row per distinct player name, in order of first appearance,
      holding that player's points, tile count, number of distinct events
      and the badges the page computes from the tally, which never include
      the two event badges; the tile counts add up to the number of
      completions. */
  method AggregateStats(cs: seq<Completion>) returns (r: seq<PlayerStat>)
    ensures forall i, j :: 0 <= i < j < |r| ==> r[i].name != r[j].name
    ensures (set p | p in r :: p.name) == Names(cs)
    ensures forall i :: 0 <= i < |r| ==>
              && r[i].points == PlayerPoints(cs, r[i].name)
              && r[i].tiles == PlayerTiles(cs, r[i].name)
              && r[i].events == |PlayerEvents(cs, r[i].name)|
              && r[i].badges == TallyBadges(r[i].tiles, r[i].points)
    ensures forall i :: 0 <= i < |r| ==> FirstEvent !in r[i].badges && FiveEvents !in r[i].badges
    ensures SumStatTiles(r) == |cs|
  {
    var stats: seq<Tally> := [];
    assert TallyNames(stats) == {} == Names(cs[..0]);
    for i := 0 to |cs|
      invariant TalliesOf(stats, cs[..i])
    {
      assert cs[..i + 1] == cs[..i] + [cs[i]];
      CountStep(stats, cs[..i], cs[i]);
      stats := Count(stats, cs[i]);
    }
    assert cs[..|cs|] == cs;
    r := Rows(stats);
    FinishRows(stats, cs);
  }

  function Rows(ts: seq<Tally>): seq<PlayerStat>
  {
    seq(|ts|, k requires 0 <= k < |ts| => Finish(ts[k]))
  }

  lemma FinishRows(ts: seq<Tally>, cs: seq<Completion>)
    requires TalliesOf(ts, cs)
    ensures var r := Rows(ts);
            && (forall i, j :: 0 <= i < j < |r| ==> r[i].name != r[j].name)
            && (set p | p in r :: p.name) == Names(cs)
            && (forall i :: 0 <= i < |r| ==>
                  && r[i].points == PlayerPoints(cs, r[i].name)
                  && r[i].tiles == PlayerTiles(cs, r[i].name)
                  && r[i].events == |PlayerEvents(cs, r[i].name)|
                  && r[i].badges == TallyBadges(r[i].tiles, r[i].points))
            && (forall i :: 0 <= i < |r| ==> FirstEvent !in r[i].badges && FiveEvents !in r[i].badges)
            && SumStatTiles(r) == |cs|
  {
    FinishKeepsTiles(ts);
    RowNames(ts);
  }

  lemma RowNames(ts: seq<Tally>)
    ensures (set p | p in Rows(ts) :: p.name) == TallyNames(ts)
  {
    var r := Rows(ts);
    forall n | n in TallyNames(ts) ensures n in (set p | p in r :: p.name) {
      var t :| t in ts && t.name == n;
      var k :| 0 <= k < |ts| && ts[k] == t;
      assert r[k] in r;
    }
  }

  lemma {:induction false} AbsentName(cs: seq<Completion>, n: string)
    requires n !in Names(cs)
    ensures PlayerPoints(cs, n) == 0 && PlayerTiles(cs, n) == 0 && PlayerEvents(cs, n) == {}
  {
    if cs != [] {
      var m := |cs| - 1;
      assert Names(cs[..m]) <= Names(cs) by {
        forall x | x in Names(cs[..m]) ensures x in Names(cs) {
          var c :| c in cs[..m] && c.playerName == x;
        }
      }
      assert cs[m] in cs;
      AbsentName(cs[..m], n);
    }
  }

  /** A single approved completion worth under 100 points: the thresholds
      give its player "First Blood" and "Event Rookie", but the page's row
      holds "First Blood" only. */
  lemma OneCompletionRow(c: Completion)
    requires Awarded(c) < 100
    ensures Rows(Count([], c)) == [PlayerStat(c.playerName, Awarded(c), 1, 1, [FirstTile])]
    ensures EarnedBadges(1, Awarded(c), 1) == [FirstTile, FirstEvent]
  {
    var t := Tally(c.playerName, Awarded(c), 1, {c.eventId});
    FirstCount(c);
    assert |t.events| == 1;
    FewTilesBadges(Awarded(c));
    assert Rows([t])[0] == Finish(t);
  }

  /** The first completion opens its player's entry with its own totals. */
  lemma FirstCount(c: Completion)
    ensures Count([], c) == [Tally(c.playerName, Awarded(c), 1, {c.eventId})]
  {
    assert IndexOfName([], c.playerName) == -1;
    assert {} + {c.eventId} == {c.eventId};
  }

  /** One tile and under 100 points: the page shows "First Blood" alone,
      the thresholds with one event add "Event Rookie". */
  lemma FewTilesBadges(points: int)
    requires points < 100
    ensures TallyBadges(1, points) == [FirstTile]
    ensures EarnedBadges(1, points, 1) == [FirstTile, FirstEvent]
  {
    FewTilesTallyBadges(points);
    FewTilesEarnedBadges(points);
  }

  lemma FewTilesTallyBadges(points: int)
    requires points < 100
    ensures TallyBadges(1, points) == [FirstTile]
  {
    var r := TallyBadges(1, points);
    forall x ensures x in r <==> x in [FirstTile] {
      assert ThresholdOnTally(x, 1, points) <==> x == FirstTile;
    }
    SameBadges(r, [FirstTile]);
  }

  lemma FewTilesEarnedBadges(points: int)
    requires points < 100
    ensures EarnedBadges(1, points, 1) == [FirstTile, FirstEvent]
  {
    var r := EarnedBadges(1, points, 1);
    forall x ensures x in r <==> x in [FirstTile, FirstEvent] {
      assert Threshold(x, 1, points, 1) <==> x == FirstTile || x == FirstEvent;
    }
    PairInOrder(FirstTile, FirstEvent);
    SameBadges(r, [FirstTile, FirstEvent]);
  }

  lemma PairInOrder(x: Badge, y: Badge)
    requires Rank(x) < Rank(y)
    ensures InBadgeOrder([x, y])
  {
    forall i, j | 0 <= i < j < 2 ensures Rank([x, y][i]) < Rank([x, y][j]) {
      assert i == 0 && j == 1;
    }
  }

  // ---------------------------------------------------------------------
  // Filters and sorting

  datatype SortField = ByPoints | ByTiles | ByEvents
  datatype SortDir = Desc | Asc

  function FieldValue(f: SortField): PlayerStat -> int
  {
    (p: PlayerStat) => match f
                       case ByPoints => p.points
                       case ByTiles => p.tiles
                       case ByEvents => p.events
  }

  predicate MatchesSearch(p: PlayerStat, query: string)
  {
    Contains(ToLower(p.name), ToLower(query))
  }

  predicate HasBadge(p: PlayerStat, badgeId: string)
  {
    exists k :: 0 <= k < |p.badges| && BadgeId(p.badges[k]) == badgeId
  }

  /** The search filter, skipped for an empty query, then the badge
      filter, skipped for "all". */
  function Filtered(stats: seq<PlayerStat>, query: string, badgeId: string): seq<PlayerStat>
  {
    var searched := if query != "" then Keep(stats, p => MatchesSearch(p, query)) else stats;
    if badgeId != "all" then Keep(searched, p => HasBadge(p, badgeId)) else searched
  }

  /** The filters keep exactly the players matching the query
      case-insensitively and holding the badge; an empty query and "all"
      keep everyone. */
  lemma FilteredExactly(stats: seq<PlayerStat>, query: string, badgeId: string)
    ensures forall p :: p in Filtered(stats, query, badgeId) <==>
              p in stats && (query == "" || MatchesSearch(p, query)) && (badgeId == "all" || HasBadge(p, badgeId))
    ensures query == "" && badgeId == "all" ==> Filtered(stats, query, badgeId) == stats
  {
    var searched := if query != "" then Keep(stats, p => MatchesSearch(p, query)) else stats;
    assert forall p :: p in searched <==> p in stats && (query == "" || MatchesSearch(p, query));
  }

  /** The badge filter for a badge no row holds empties the table. */
  lemma AbsentBadgeFilterEmpty(rows: seq<PlayerStat>, query: string, b: Badge)
    requires forall i :: 0 <= i < |rows| ==> b !in rows[i].badges
    ensures Filtered(rows, query, BadgeId(b)) == []
  {
    forall p | p in rows ensures !HasBadge(p, BadgeId(b)) {
      var i :| 0 <= i < |rows| && rows[i] == p;
      forall k | 0 <= k < |p.badges| ensures BadgeId(p.badges[k]) != BadgeId(b) {
        assert p.badges[k] in rows[i].badges;
        BadgeIdInjective(p.badges[k], b);
      }
    }
    FilteredExactly(rows, query, BadgeId(b));
    HeadIsMember(Filtered(rows, query, BadgeId(b)));
  }

  /** Distinct badges have distinct ids. */
  lemma BadgeIdInjective(x: Badge, y: Badge)
    ensures BadgeId(x) == BadgeId(y) <==> x == y
  {
  }

  /** On rows without event badges, choosing "first_event" or
      "five_events" in the badge filter empties the table. */
  lemma EventFilterEmpty(rows: seq<PlayerStat>, query: string)
    requires forall i :: 0 <= i < |rows| ==> FirstEvent !in rows[i].badges && FiveEvents !in rows[i].badges
    ensures Filtered(rows, query, "first_event") == []
    ensures Filtered(rows, query, "five_events") == []
  {
    AbsentBadgeFilterEmpty(rows, query, FirstEvent);
    AbsentBadgeFilterEmpty(rows, query, FiveEvents);
  }

  /** `filteredStats`. */
  function View(stats: seq<PlayerStat>, query: string, badgeId: string, field: SortField, dir: SortDir): seq<PlayerStat>
  {
    var f := Filtered(stats, query, badgeId);
    if dir == Desc then Sorting.SortDesc(f, FieldValue(field)) else Sorting.SortAsc(f, FieldValue(field))
  }

  /** The table is the filtered list reordered by the chosen field in the
      chosen direction; rows with equal values keep their order. */
  lemma ViewSortedPermutation(stats: seq<PlayerStat>, query: string, badgeId: string, field: SortField, dir: SortDir, v: int)
    ensures var r := View(stats, query, badgeId, field, dir);
            && multiset(r) == multiset(Filtered(stats, query, badgeId))
            && (dir == Desc ==> Sorting.SortedDesc(r, FieldValue(field)))
            && (dir == Asc ==> Sorting.SortedAsc(r, FieldValue(field)))
            && Sorting.WithKey(r, FieldValue(field), v) == Sorting.WithKey(Filtered(stats, query, badgeId), FieldValue(field), v)
  {
    var f := Filtered(stats, query, badgeId);
    if dir == Desc {
      Sorting.SortDescSortedPermutation(f, FieldValue(field));
      Sorting.SortDescStable(f, FieldValue(field), v);
    } else {
      Sorting.SortAscSortedPermutation(f, FieldValue(field));
      Sorting.SortAscStable(f, FieldValue(field), v);
    }
  }

  /** `toggleSort(field)`: the same field flips the direction, another
      field is selected descending. */
  function ToggleSort(current: (SortField, SortDir), field: SortField): (r: (SortField, SortDir))
    ensures r.0 == field
    ensures current.0 == field ==> r.1 != current.1
    ensures current.0 != field ==> r.1 == Desc
  {
    if current.0 == field then (field, if current.1 == Desc then Asc else Desc)
    else (field, Desc)
  }

  /** Toggling the same field twice restores the order. */
  lemma ToggleTwice(current: (SortField, SortDir))
    ensures ToggleSort(ToggleSort(current, current.0), current.0) == current
  {
  }

  // ---------------------------------------------------------------------
  // Resets

  /** `handleResetPlayer`: a declined `confirm` changes nothing; otherwise
      every completion under that player name, of any status, is deleted. */
  method ResetPlayer(store: Store, name: string, confirmed: bool)
    modifies store`completions
    ensures !confirmed ==> store.completions == old(store.completions)
    ensures confirmed ==> store.completions == Without(old(store.completions), CompletionKey,
                                                       CompletionIds(Keep(old(store.completions), (c: Completion) => c.playerName == name)))
  {
    if !confirmed { return; }
    store.DeleteCompletions(Keep(store.completions, (c: Completion) => c.playerName == name));
  }

  /** After a player reset no completion carries that name. */
  lemma ResetPlayerClears(cs: seq<Completion>, name: string)
    ensures forall c :: c in Without(cs, CompletionKey, CompletionIds(Keep(cs, (c: Completion) => c.playerName == name)))
                        ==> c.playerName != name
  {
    var doomed := Keep(cs, (c: Completion) => c.playerName == name);
    var r := Without(cs, CompletionKey, CompletionIds(doomed));
    forall c | c in r ensures c.playerName != name {
      var i :| 0 <= i < |r| && r[i] == c;
      var j :| 0 <= j < |cs| && cs[j] == c;
    }
  }

  /** `handleResetLeaderboard`: a declined `confirm` changes nothing;
      otherwise every completion is deleted, then every team's score is
      zeroed. */
  method ResetLeaderboard(store: Store, confirmed: bool)
    modifies store`completions, store`teams
    ensures !confirmed ==> store.completions == old(store.completions) && store.teams == old(store.teams)
    ensures confirmed ==> store.completions == Without(old(store.completions), CompletionKey, CompletionIds(old(store.completions)))
    ensures confirmed ==> store.teams == UpdateWhere(old(store.teams), TeamKey, TeamIds(old(store.teams)), ResetScore)
  {
    if !confirmed { return; }
    store.DeleteCompletions(store.completions);
    store.ResetTeams(store.teams);
  }

  /** The leaderboard reset leaves no completion and every team at zero. */
  lemma ResetLeaderboardClears(cs: seq<Completion>, ts: seq<Team>)
    ensures Without(cs, CompletionKey, CompletionIds(cs)) == []
    ensures forall i :: 0 <= i < |ts| ==> UpdateWhere(ts, TeamKey, TeamIds(ts), ResetScore)[i] == ResetScore(ts[i])
  {
    WithoutAll(cs, CompletionKey, CompletionIds(cs));
  }
}
