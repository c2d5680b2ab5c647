/** The admin dialog over every profile: search, admin rights, 24-hour bans
    and deletion. */
module AdminRolesDialog {
  import opened Common
  import opened Entities
  import opened Store

  /** 24 hours in milliseconds. */
  const BanLength: int := 24 * 60 * 60 * 1000

  /** `p.username?.toLowerCase().includes(search.toLowerCase())`. */
  predicate UsernameMatches(p: Profile, search: string)
  {
    p.username.Some? && Contains(ToLower(p.username.value), ToLower(search))
  }

  function Filtered(profiles: seq<Profile>, search: string): seq<Profile>
  {
    Keep(profiles, (p: Profile) => UsernameMatches(p, search))
  }

  /** The list holds exactly the profiles whose username contains the
      search text, ignoring case; a profile without a username never shows,
      and an empty search shows every other one. */
  lemma FilteredExact(profiles: seq<Profile>, search: string)
    ensures forall p :: p in Filtered(profiles, search) <==> p in profiles && UsernameMatches(p, search)
    ensures forall p :: p in Filtered(profiles, search) ==> p.username.Some?
    ensures search == "" ==> forall p :: p in profiles && p.username.Some? ==> p in Filtered(profiles, search)
  {
    var r := Filtered(profiles, search);
    forall p | p in r ensures p in profiles && UsernameMatches(p, search) {
      var i :| 0 <= i < |r| && r[i] == p;
    }
    forall p | p in profiles && UsernameMatches(p, search) ensures p in r {
      var i :| 0 <= i < |profiles| && profiles[i] == p;
    }
    if search == "" {
      forall p | p in profiles && p.username.Some? ensures UsernameMatches(p, search) {
        ContainsEmpty(ToLower(p.username.value));
      }
    }
  }

  /** `profile.banned_until && new Date(profile.banned_until) > new Date()`. */
  predicate IsBanned(p: Profile, now: int)
  {
    p.bannedUntil.Some? && p.bannedUntil.value > now
  }

  function SetAdmin(isAdmin: bool): Profile -> Profile
  {
    (p: Profile) => p.(isAdmin := isAdmin)
  }

  function SetBannedUntil(until: Option<int>): Profile -> Profile
  {
    (p: Profile) => p.(bannedUntil := until)
  }

  /** A ban issued at `t0` holds for exactly the next 24 hours; after an
      unban the profile is never banned; the role button applied twice
      restores the flag. */
  lemma BanWindow(p: Profile, t0: int, t: int)
    ensures IsBanned(SetBannedUntil(Some(t0 + BanLength))(p), t) <==> t < t0 + BanLength
    ensures !IsBanned(SetBannedUntil(None)(p), t)
    ensures var q := SetAdmin(!p.isAdmin)(p); SetAdmin(!q.isAdmin)(q) == p
  {
  }

  datatype Button = UnbanButton | RoleButton | BanButton | DeleteButton

  /** The buttons of one row: a banned profile gets Unban and Delete, any
      other the role button, Ban and Delete. */
  function Buttons(p: Profile, now: int): (r: seq<Button>)
    ensures UnbanButton in r <==> IsBanned(p, now)
    ensures RoleButton in r <==> !IsBanned(p, now)
    ensures BanButton in r <==> !IsBanned(p, now)
    ensures DeleteButton in r
  {
    if IsBanned(p, now) then [UnbanButton, DeleteButton] else [RoleButton, BanButton, DeleteButton]
  }

  /** The role button: `is_admin` becomes the negation of the shown value. */
  method ToggleRole(store: Store, p: Profile)
    modifies store`profiles
    ensures store.profiles == UpdateWhere(old(store.profiles), ProfileKey, {p.id}, SetAdmin(!p.isAdmin))
  {
    store.UpdateProfile(p.id, SetAdmin(!p.isAdmin));
  }

  /** The ban button, after the confirmation dialog, at clock reading `now`. */
  method Ban(store: Store, profileId: Id, now: int, confirmed: bool)
    modifies store`profiles
    ensures !confirmed ==> store.profiles == old(store.profiles)
    ensures confirmed ==> store.profiles == UpdateWhere(old(store.profiles), ProfileKey, {profileId}, SetBannedUntil(Some(now + BanLength)))
  {
    if !confirmed { return; }
    store.UpdateProfile(profileId, SetBannedUntil(Some(now + BanLength)));
  }

  method Unban(store: Store, profileId: Id)
    modifies store`profiles
    ensures store.profiles == UpdateWhere(old(store.profiles), ProfileKey, {profileId}, SetBannedUntil(None))
  {
    store.UpdateProfile(profileId, SetBannedUntil(None));
  }

  method DeleteProfile(store: Store, profileId: Id, confirmed: bool)
    modifies store`profiles
    ensures !confirmed ==> store.profiles == old(store.profiles)
    ensures confirmed ==> store.profiles == Without(old(store.profiles), ProfileKey, {profileId})
  {
    if !confirmed { return; }
    store.DeleteProfile(profileId);
  }
}
