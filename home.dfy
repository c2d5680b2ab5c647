/** The home page: the browser's session id, which profile is the player's,
    and the admin's deletion of a completed event with its teams and
    completions. */
module HomePage {
  import opened Common
  import opened Entities
  import opened Store

  const SessionPrefix: string := "session_"

  /** `Profile.filter({ session_id })`. */
  function OfSession(sessionId: string): Profile -> bool
  {
    (p: Profile) => p.sessionId == sessionId
  }

  /** `Profile.filter({ user_email })`. */
  function OfEmail(email: string): Profile -> bool
  {
    (p: Profile) => p.userEmail == Some(email)
  }

  /** The profile query: the session's profiles, or, when there are none
      and an account e-mail is known, the account's profiles. */
  function Lookup(profiles: seq<Profile>, sessionId: string, user: Option<User>): seq<Profile>
  {
    var bySession := Keep(profiles, OfSession(sessionId));
    if |bySession| > 0 then bySession
    else if user.Some? && user.value.email.Some? && user.value.email.value != "" then
      Keep(profiles, OfEmail(user.value.email.value))
    else bySession
  }

  /** The profile the page settles on: the first one the query returns. */
  function Resolved(profiles: seq<Profile>, sessionId: string, user: Option<User>): Option<Profile>
  {
    var found := Lookup(profiles, sessionId, user);
    if |found| > 0 then Some(found[0]) else None
  }

  /** A profile of this browser session always wins; only when there is
      none does a signed-in account's profile count; the setup dialog opens
      exactly when neither exists. */
  lemma ResolutionOrder(profiles: seq<Profile>, sessionId: string, user: Option<User>)
    ensures (exists p :: p in profiles && p.sessionId == sessionId) ==>
              Resolved(profiles, sessionId, user).Some? && Resolved(profiles, sessionId, user).value.sessionId == sessionId
    ensures (forall p :: p in profiles ==> p.sessionId != sessionId) && Resolved(profiles, sessionId, user).Some? ==>
              && user.Some? && user.value.email.Some?
              && Resolved(profiles, sessionId, user).value.userEmail == user.value.email
    ensures Resolved(profiles, sessionId, user).Some? ==> Resolved(profiles, sessionId, user).value in profiles
    ensures Resolved(profiles, sessionId, user).None? <==>
              && (forall p :: p in profiles ==> p.sessionId != sessionId)
              && (user.None? || user.value.email.None? || user.value.email.value == ""
                  || forall p :: p in profiles ==> p.userEmail != user.value.email)
  {
    var bySession := Keep(profiles, OfSession(sessionId));
    if p :| p in profiles && p.sessionId == sessionId {
      var k :| 0 <= k < |profiles| && profiles[k] == p;
      assert bySession != [] by { assert p in bySession; }
    }
    if bySession != [] {
      assert bySession[0] in profiles;
    } else {
      assert forall p :: p in profiles ==> p.sessionId != sessionId by {
        forall p | p in profiles ensures p.sessionId != sessionId {
          var k :| 0 <= k < |profiles| && profiles[k] == p;
        }
      }
      if user.Some? && user.value.email.Some? && user.value.email.value != "" {
        var byEmail := Keep(profiles, OfEmail(user.value.email.value));
        if p :| p in profiles && p.userEmail == user.value.email {
          var k :| 0 <= k < |profiles| && profiles[k] == p;
          assert p in byEmail;
        }
        if byEmail != [] {
          assert byEmail[0] in profiles;
        } else {
          forall p | p in profiles ensures p.userEmail != user.value.email {
            var k :| 0 <= k < |profiles| && profiles[k] == p;
          }
        }
      }
    }
  }

  /** The page's state that outlives a render: the browser's saved values
      and what the page decided. */
  class HomeState {
    const store: Store
    var savedSessionId: Option<string>
    var savedProfileId: Option<string>
    var savedUsername: Option<string>
    var profile: Option<Profile>
    var showProfileSetup: bool

    constructor(store: Store, savedSessionId: Option<string>)
      ensures this.store == store && this.savedSessionId == savedSessionId
      ensures savedProfileId.None? && savedUsername.None? && profile.None? && !showProfileSetup
    {
      this.store := store;
      this.savedSessionId := savedSessionId;
      savedProfileId := None;
      savedUsername := None;
      profile := None;
      showProfileSetup := false;
    }

    /** The `sessionId` initialiser: a saved id is reused, otherwise
        "session_" and the random suffix is saved and used. */
    method InitSession(suffix: string) returns (sid: string)
      modifies this`savedSessionId
      ensures old(savedSessionId).Some? && old(savedSessionId).value != "" ==>
                sid == old(savedSessionId).value && savedSessionId == old(savedSessionId)
      ensures old(savedSessionId).None? || old(savedSessionId).value == "" ==>
                sid == SessionPrefix + suffix && savedSessionId == Some(sid)
      ensures savedSessionId == Some(sid) && sid != ""
    {
      if savedSessionId.Some? && savedSessionId.value != "" {
        sid := savedSessionId.value;
      } else {
        sid := SessionPrefix + suffix;
        savedSessionId := Some(sid);
      }
    }

    /** The effect that runs once the profile query has answered: the first
        profile becomes the player's and is remembered, or the setup dialog
        opens. */
    method SettleProfile(sessionId: string, user: Option<User>)
      modifies this`profile, this`savedProfileId, this`savedUsername, this`showProfileSetup
      ensures var r := Resolved(store.profiles, sessionId, user);
              && (r.Some? ==> profile == r && savedProfileId == Some(r.value.id) && savedUsername == r.value.username
                              && showProfileSetup == old(showProfileSetup))
              && (r.None? ==> showProfileSetup && profile == old(profile) && savedProfileId == old(savedProfileId)
                              && savedUsername == old(savedUsername))
    {
      var found := Lookup(store.profiles, sessionId, user);
      if |found| > 0 {
        profile := Some(found[0]);
        savedProfileId := Some(found[0].id);
        savedUsername := found[0].username;
      } else {
        showProfileSetup := true;
      }
    }
  }

  /** The delete button: an admin profile and a completed event. */
  predicate OffersDelete(profile: Option<Profile>, event: BingoEvent)
  {
    profile.Some? && profile.value.isAdmin && event.status == Completed
  }

  /** `deleteEvent`: each team of the event, then each completion of the
      event, then the event itself. */
  method DeleteEvent(store: Store, eventId: Id)
    modifies store`teams, store`completions, store`events
    ensures store.teams == Without(old(store.teams), TeamKey, TeamIds(TeamsOfEvent(old(store.teams), eventId)))
    ensures store.completions == Without(old(store.completions), CompletionKey,
                                         CompletionIds(CompletionsOfEvent(old(store.completions), eventId)))
    ensures store.events == Without(old(store.events), EventKey, {eventId})
  {
    var teams := TeamsOfEvent(store.teams, eventId);
    var completions := CompletionsOfEvent(store.completions, eventId);
    store.DeleteTeams(teams);
    store.DeleteCompletions(completions);
    store.DeleteEvent(eventId);
  }

  /** The click on the delete button: only an offered, confirmed delete
      runs. */
  method DeleteClicked(store: Store, profile: Option<Profile>, event: BingoEvent, confirmed: bool)
    modifies store`teams, store`completions, store`events
    ensures !(OffersDelete(profile, event) && confirmed) ==>
              store.teams == old(store.teams) && store.completions == old(store.completions)
              && store.events == old(store.events)
    ensures OffersDelete(profile, event) && confirmed ==>
              && store.teams == Without(old(store.teams), TeamKey, TeamIds(TeamsOfEvent(old(store.teams), event.id)))
              && store.completions == Without(old(store.completions), CompletionKey,
                                              CompletionIds(CompletionsOfEvent(old(store.completions), event.id)))
              && store.events == Without(old(store.events), EventKey, {event.id})
  {
    if OffersDelete(profile, event) && confirmed {
      DeleteEvent(store, event.id);
    }
  }

  /** After the cascade nothing of the event is left: no team, no
      completion, no event record with its id; and, ids being distinct,
      every team and completion of another event is still there. */
  lemma CascadeLeavesNothing(ts: seq<Team>, cs: seq<Completion>, es: seq<BingoEvent>, eventId: Id)
    ensures forall t :: t in Without(ts, TeamKey, TeamIds(TeamsOfEvent(ts, eventId))) ==> t.eventId != eventId
    ensures forall c :: c in Without(cs, CompletionKey, CompletionIds(CompletionsOfEvent(cs, eventId))) ==>
              c.eventId != eventId
    ensures forall e :: e in Without(es, EventKey, {eventId}) ==> e.id != eventId
    ensures UniqueTeamIds(ts) ==>
              forall t :: t in ts && t.eventId != eventId ==> t in Without(ts, TeamKey, TeamIds(TeamsOfEvent(ts, eventId)))
    ensures UniqueCompletionIds(cs) ==>
              forall c :: c in cs && c.eventId != eventId ==>
                c in Without(cs, CompletionKey, CompletionIds(CompletionsOfEvent(cs, eventId)))
  {
    var rt := Without(ts, TeamKey, TeamIds(TeamsOfEvent(ts, eventId)));
    forall t | t in rt ensures t.eventId != eventId {
      var k :| 0 <= k < |rt| && rt[k] == t;
    }
    var rc := Without(cs, CompletionKey, CompletionIds(CompletionsOfEvent(cs, eventId)));
    forall c | c in rc ensures c.eventId != eventId {
      var k :| 0 <= k < |rc| && rc[k] == c;
    }
    var re := Without(es, EventKey, {eventId});
    forall e | e in re ensures e.id != eventId {
      var k :| 0 <= k < |re| && re[k] == e;
    }
    if UniqueTeamIds(ts) {
      forall t | t in ts && t.eventId != eventId ensures t in rt {
        var k :| 0 <= k < |ts| && ts[k] == t;
      }
    }
    if UniqueCompletionIds(cs) {
      forall c | c in cs && c.eventId != eventId ensures c in rc {
        var k :| 0 <= k < |cs| && cs[k] == c;
      }
    }
  }
}
