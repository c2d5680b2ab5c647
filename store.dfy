/** The hosted backend as the client sees it: one collection per record
    kind, with `create` appending a record, `update(id, fields)` rewriting
    the records with that id and `delete(id)` removing them. Record ids are
    chosen by the backend; here the caller passes them in. */
module Store {
  import opened Common
  import opened Entities

  function EventKey(e: BingoEvent): string { e.id }
  function TeamKey(t: Team): string { t.id }
  function CompletionKey(c: Completion): string { c.id }
  function MembershipKey(m: Membership): string { m.id }
  function InvitationKey(i: Invitation): string { i.id }
  function ProfileKey(p: Profile): string { p.id }

  // Field patches passed to `update(id, fields)`.

  function SetPowerups(p: map<string, int>, c: map<string, int>): Team -> Team
  {
    (t: Team) => t.(powerups := p, powerupCooldowns := c)
  }

  function SetTiles(tiles: seq<Tile>): BingoEvent -> BingoEvent
  {
    (e: BingoEvent) => e.(tiles := tiles)
  }

  function SetBlocked(bs: seq<BlockedEntry>): Team -> Team
  {
    (t: Team) => t.(blockedTiles := bs)
  }

  function SetMembers(ms: seq<string>): Team -> Team
  {
    (t: Team) => t.(members := ms)
  }

  function SetStatus(s: Status): Completion -> Completion
  {
    (c: Completion) => c.(status := s)
  }

  /** The leaderboard reset's patch: score zeroed, completed tiles emptied. */
  function ResetScore(t: Team): Team
  {
    t.(totalPoints := Some(0), completedTiles := [])
  }

  lemma ResetScoreIdempotent()
    ensures forall t :: TeamKey(ResetScore(t)) == TeamKey(t) && ResetScore(ResetScore(t)) == ResetScore(t)
  {
  }

  class Store {
    var events: seq<BingoEvent>
    var teams: seq<Team>
    var completions: seq<Completion>
    var memberships: seq<Membership>
    var invitations: seq<Invitation>
    var profiles: seq<Profile>
    var messages: seq<ChatMessage>

    constructor()
      ensures events == [] && teams == [] && completions == [] && memberships == []
      ensures invitations == [] && profiles == [] && messages == []
    {
      events, teams, completions, memberships := [], [], [], [];
      invitations, profiles, messages := [], [], [];
    }

    method CreateEvent(e: BingoEvent)
      modifies this`events
      ensures events == old(events) + [e]
    {
      events := events + [e];
    }

    method UpdateEvent(id: Id, f: BingoEvent -> BingoEvent)
      modifies this`events
      ensures events == UpdateWhere(old(events), EventKey, {id}, f)
    {
      events := UpdateWhere(events, EventKey, {id}, f);
    }

    method DeleteEvent(id: Id)
      modifies this`events
      ensures events == Without(old(events), EventKey, {id})
    {
      events := Without(events, EventKey, {id});
    }

    method CreateTeam(t: Team)
      modifies this`teams
      ensures teams == old(teams) + [t]
    {
      teams := teams + [t];
    }

    method UpdateTeam(id: Id, f: Team -> Team)
      modifies this`teams
      ensures teams == UpdateWhere(old(teams), TeamKey, {id}, f)
    {
      teams := UpdateWhere(teams, TeamKey, {id}, f);
    }

    method DeleteTeam(id: Id)
      modifies this`teams
      ensures teams == Without(old(teams), TeamKey, {id})
    {
      teams := Without(teams, TeamKey, {id});
    }

    method CreateCompletion(c: Completion)
      modifies this`completions
      ensures completions == old(completions) + [c]
    {
      completions := completions + [c];
    }

    method UpdateCompletion(id: Id, f: Completion -> Completion)
      modifies this`completions
      ensures completions == UpdateWhere(old(completions), CompletionKey, {id}, f)
    {
      completions := UpdateWhere(completions, CompletionKey, {id}, f);
    }

    method DeleteCompletion(id: Id)
      modifies this`completions
      ensures completions == Without(old(completions), CompletionKey, {id})
    {
      completions := Without(completions, CompletionKey, {id});
    }

    method CreateMembership(m: Membership)
      modifies this`memberships
      ensures memberships == old(memberships) + [m]
    {
      memberships := memberships + [m];
    }

    method DeleteMembership(id: Id)
      modifies this`memberships
      ensures memberships == Without(old(memberships), MembershipKey, {id})
    {
      memberships := Without(memberships, MembershipKey, {id});
    }

    method CreateInvitation(i: Invitation)
      modifies this`invitations
      ensures invitations == old(invitations) + [i]
    {
      invitations := invitations + [i];
    }

    method UpdateInvitation(id: Id, f: Invitation -> Invitation)
      modifies this`invitations
      ensures invitations == UpdateWhere(old(invitations), InvitationKey, {id}, f)
    {
      invitations := UpdateWhere(invitations, InvitationKey, {id}, f);
    }

    method CreateProfile(p: Profile)
      modifies this`profiles
      ensures profiles == old(profiles) + [p]
    {
      profiles := profiles + [p];
    }

    method UpdateProfile(id: Id, f: Profile -> Profile)
      modifies this`profiles
      ensures profiles == UpdateWhere(old(profiles), ProfileKey, {id}, f)
    {
      profiles := UpdateWhere(profiles, ProfileKey, {id}, f);
    }

    method DeleteProfile(id: Id)
      modifies this`profiles
      ensures profiles == Without(old(profiles), ProfileKey, {id})
    {
      profiles := Without(profiles, ProfileKey, {id});
    }

    method CreateMessage(m: ChatMessage)
      modifies this`messages
      ensures messages == old(messages) + [m]
    {
      messages := messages + [m];
    }

    /** Deletes the listed completions one at a time, as the reset
        handlers do. */
    method DeleteCompletions(doomed: seq<Completion>)
      modifies this`completions
      ensures completions == Without(old(completions), CompletionKey, CompletionIds(doomed))
    {
      WithoutNothing(completions, CompletionKey);
      ghost var done: set<Id> := {};
      var i := 0;
      while i < |doomed|
        invariant 0 <= i <= |doomed|
        invariant done == CompletionIds(doomed[..i])
        invariant completions == Without(old(completions), CompletionKey, done)
      {
        WithoutUnion(old(completions), CompletionKey, done, {doomed[i].id});
        DeleteCompletion(doomed[i].id);
        CompletionIdsPrefix(doomed, i);
        done := done + {doomed[i].id};
        i := i + 1;
      }
      assert doomed[..i] == doomed;
    }

    /** Zeroes the listed teams one at a time, as the reset handlers do. */
    method ResetTeams(ts: seq<Team>)
      modifies this`teams
      ensures teams == UpdateWhere(old(teams), TeamKey, TeamIds(ts), ResetScore)
    {
      ResetScoreIdempotent();
      UpdateWhereNothing(teams, TeamKey, ResetScore);
      ghost var done: set<Id> := {};
      var i := 0;
      while i < |ts|
        invariant 0 <= i <= |ts|
        invariant done == TeamIds(ts[..i])
        invariant teams == UpdateWhere(old(teams), TeamKey, done, ResetScore)
      {
        UpdateWhereUnion(old(teams), TeamKey, done, {ts[i].id}, ResetScore);
        UpdateTeam(ts[i].id, ResetScore);
        TeamIdsPrefix(ts, i);
        done := done + {ts[i].id};
        i := i + 1;
      }
      assert ts[..i] == ts;
    }

    /** Deletes the listed teams one at a time. */
    method DeleteTeams(ts: seq<Team>)
      modifies this`teams
      ensures teams == Without(old(teams), TeamKey, TeamIds(ts))
    {
      WithoutNothing(teams, TeamKey);
      ghost var done: set<Id> := {};
      var i := 0;
      while i < |ts|
        invariant 0 <= i <= |ts|
        invariant done == TeamIds(ts[..i])
        invariant teams == Without(old(teams), TeamKey, done)
      {
        WithoutUnion(old(teams), TeamKey, done, {ts[i].id});
        DeleteTeam(ts[i].id);
        TeamIdsPrefix(ts, i);
        done := done + {ts[i].id};
        i := i + 1;
      }
      assert ts[..i] == ts;
    }
  }
}
