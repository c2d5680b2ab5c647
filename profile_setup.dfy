/** The first-visit dialog that picks a username and creates the player's
    profile. */
module ProfileSetupDialog {
  import opened Common
  import opened Entities
  import opened Store

  const MinLength: nat := 3
  const MaxLength: nat := 20

  /** The checks of `handleSubmit`, in order: the first failing one gives
      its message. Lengths are those of the untrimmed name. */
  function ValidationError(username: string): (r: Option<string>)
    ensures Trim(username) == "" ==> r == Some("Please enter a username")
    ensures Trim(username) != "" && |username| < MinLength ==> r == Some("Username must be at least 3 characters")
    ensures Trim(username) != "" && |username| > MaxLength ==> r == Some("Username must be 20 characters or less")
    ensures r.None? <==> Trim(username) != "" && MinLength <= |username| <= MaxLength
  {
    if Trim(username) == "" then Some("Please enter a username")
    else if |username| < MinLength then Some("Username must be at least 3 characters")
    else if |username| > MaxLength then Some("Username must be 20 characters or less")
    else None
  }

  /** `Profile.filter({ username })` is not empty. */
  predicate Taken(profiles: seq<Profile>, username: string)
  {
    exists i :: 0 <= i < |profiles| && profiles[i].username == Some(username)
  }

  /** The record `createProfile` stores: `userEmail || null`. */
  function NewProfile(id: Id, username: string, sessionId: string, userEmail: Option<string>): (p: Profile)
    ensures p.id == id && p.username == Some(username) && p.sessionId == sessionId
    ensures userEmail.Some? && userEmail.value != "" ==> p.userEmail == userEmail
    ensures userEmail.None? || userEmail.value == "" ==> p.userEmail.None?
    ensures !p.isAdmin && p.bannedUntil.None?
  {
    Profile(id, Some(username), sessionId, if userEmail.Some? && userEmail.value != "" then userEmail else None,
            false, None, None)
  }

  /** No two profiles carry the same username. */
  predicate UniqueUsernames(profiles: seq<Profile>)
  {
    forall i, j :: 0 <= i < j < |profiles| && profiles[i].username.Some? ==> profiles[i].username != profiles[j].username
  }

  /** Creating a profile only for a free name keeps usernames unique, and
      afterwards the name is taken, so the same name is refused next time. */
  lemma CreationKeepsNamesUnique(profiles: seq<Profile>, p: Profile, username: string)
    requires UniqueUsernames(profiles) && !Taken(profiles, username) && p.username == Some(username)
    ensures UniqueUsernames(profiles + [p])
    ensures Taken(profiles + [p], username)
  {
    var ps := profiles + [p];
    forall i, j | 0 <= i < j < |ps| && ps[i].username.Some? ensures ps[i].username != ps[j].username {
      if j == |profiles| {
        assert ps[i] == profiles[i];
      } else {
        assert ps[i] == profiles[i] && ps[j] == profiles[j];
      }
    }
    assert ps[|profiles|] == p;
  }

  class SetupForm {
    const store: Store
    const sessionId: string
    const userEmail: Option<string>
    var username: string
    var error: string

    constructor(store: Store, sessionId: string, userEmail: Option<string>)
      ensures this.store == store && this.sessionId == sessionId && this.userEmail == userEmail
      ensures username == "" && error == ""
    {
      this.store := store;
      this.sessionId := sessionId;
      this.userEmail := userEmail;
      username := "";
      error := "";
    }

    /** `handleSubmit` and `createProfile`: an invalid or taken name shows
        its message and creates nothing; otherwise the profile is stored
        and handed to `onComplete`. */
    method HandleSubmit(id: Id) returns (created: Option<Profile>)
      modifies store`profiles, this`error
      ensures ValidationError(username).Some? ==>
                created.None? && error == ValidationError(username).value && store.profiles == old(store.profiles)
      ensures ValidationError(username).None? && Taken(old(store.profiles), username) ==>
                created.None? && error == "Username already taken" && store.profiles == old(store.profiles)
      ensures ValidationError(username).None? && !Taken(old(store.profiles), username) ==>
                && created == Some(NewProfile(id, username, sessionId, userEmail))
                && store.profiles == old(store.profiles) + [created.value] && error == ""
    {
      var problem := ValidationError(username);
      error := "";
      if problem.Some? {
        error := problem.value;
        return None;
      }
      if Taken(store.profiles, username) {
        error := "Username already taken";
        return None;
      }
      var p := NewProfile(id, username, sessionId, userEmail);
      store.CreateProfile(p);
      created := Some(p);
    }
  }
}
