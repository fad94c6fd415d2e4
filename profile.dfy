/**
 * User profiles: a list of profiles under one storage key, upserted by user id,
 * plus one "first login" date per user under a key of its own.
 */
module Profile {
  import opened Wrappers
  import opened Storage
  import Sequences

  datatype UserProfile = UserProfile(
    userId: string,
    displayName: string,
    profilePicture: Option<string>,
    dateJoined: string,
    totalSessionsCreated: int)

  /** A partial profile: the fields a caller passes (`None` = key not given). */
  datatype ProfilePatch = ProfilePatch(
    userId: Option<string>,
    displayName: Option<string>,
    profilePicture: Option<string>,
    dateJoined: Option<string>,
    totalSessionsCreated: Option<int>)

  const DefaultDisplayName: string := "Wellness User"

  /** JavaScript truthiness of an optional string: given and not empty. */
  predicate Truthy(s: Option<string>) {
    s.Some? && s.value != ""
  }

  function OfUser(userId: string): UserProfile -> bool {
    (p: UserProfile) => p.userId == userId
  }

  /** The first profile of the user, if any (`Array.prototype.find`). */
  function FindProfile(profiles: seq<UserProfile>, userId: string): (r: Option<UserProfile>)
    ensures r.Some? ==> r.value.userId == userId && r.value in profiles
    ensures r.None? <==> forall p :: p in profiles ==> p.userId != userId
    ensures r.Some? ==> exists i :: 0 <= i < |profiles| && profiles[i] == r.value &&
                                    forall j :: 0 <= j < i ==> profiles[j].userId != userId
  {
    match Sequences.FirstIndex(profiles, OfUser(userId))
    case Some(i) => Some(profiles[i])
    case None => None
  }

  /** At most one profile per user. */
  predicate UniqueUsers(profiles: seq<UserProfile>) {
    forall i, j :: 0 <= i < j < |profiles| ==> profiles[i].userId != profiles[j].userId
  }

  /**
   * The list `createOrUpdateProfile` writes: the user's first profile replaced,
   * or the profile appended when the user has none.
   */
  function Upsert(profiles: seq<UserProfile>, p: UserProfile): (r: seq<UserProfile>)
    ensures p in r
    ensures forall q :: q in profiles && q.userId != p.userId ==> q in r
    ensures forall q :: q in r ==> q == p || q in profiles
  {
    match Sequences.FirstIndex(profiles, OfUser(p.userId))
    case Some(i) =>
      var r := profiles[i := p];
      assert r[i] == p;
      assert forall q :: q in profiles && q.userId != p.userId ==> q in r by {
        forall q | q in profiles && q.userId != p.userId
          ensures q in r
        {
          var j :| 0 <= j < |profiles| && profiles[j] == q;
          assert OfUser(p.userId)(profiles[i]);
          assert r[j] == q;
        }
      }
      r
    case None => profiles + [p]
  }

  /**
   * After an upsert the user's profile is the new one, every other user's
   * profile is unchanged, and a list with one profile per user keeps that.
   */
  lemma UpsertSpec(profiles: seq<UserProfile>, p: UserProfile)
    ensures FindProfile(Upsert(profiles, p), p.userId) == Some(p)
    ensures forall u :: u != p.userId ==> FindProfile(Upsert(profiles, p), u) == FindProfile(profiles, u)
    ensures UniqueUsers(profiles) ==> UniqueUsers(Upsert(profiles, p))
    ensures |Upsert(profiles, p)| == |profiles| + (if FindProfile(profiles, p.userId).None? then 1 else 0)
  {
    match Sequences.FirstIndex(profiles, OfUser(p.userId))
    case Some(i) => UpsertReplaces(profiles, p, i);
    case None => UpsertAppends(profiles, p);
  }

  /** The case where the user has a profile at `i`: it is overwritten in place. */
  lemma UpsertReplaces(profiles: seq<UserProfile>, p: UserProfile, i: nat)
    requires Sequences.FirstIndex(profiles, OfUser(p.userId)) == Some(i)
    ensures FindProfile(profiles[i := p], p.userId) == Some(p)
    ensures forall u :: u != p.userId ==> FindProfile(profiles[i := p], u) == FindProfile(profiles, u)
    ensures UniqueUsers(profiles) ==> UniqueUsers(profiles[i := p])
  {
    var r := profiles[i := p];
    assert forall j :: 0 <= j < |r| ==> r[j].userId == profiles[j].userId;
    assert forall j :: 0 <= j < |r| && j != i ==> r[j] == profiles[j];
    assert Sequences.FirstIndex(r, OfUser(p.userId)) == Some(i) by {
      assert OfUser(p.userId)(r[i]);
    }
    forall u | u != p.userId
      ensures FindProfile(r, u) == FindProfile(profiles, u)
    {
      FirstIndexAgree(profiles, r, u);
    }
  }

  /** The case where the user has no profile: the new one goes at the end. */
  lemma UpsertAppends(profiles: seq<UserProfile>, p: UserProfile)
    requires Sequences.FirstIndex(profiles, OfUser(p.userId)).None?
    ensures FindProfile(profiles + [p], p.userId) == Some(p)
    ensures forall u :: u != p.userId ==> FindProfile(profiles + [p], u) == FindProfile(profiles, u)
    ensures UniqueUsers(profiles) ==> UniqueUsers(profiles + [p])
  {
    var r := profiles + [p];
    assert forall j :: 0 <= j < |profiles| ==> r[j] == profiles[j];
    assert Sequences.FirstIndex(r, OfUser(p.userId)) == Some(|profiles|) by {
      assert OfUser(p.userId)(r[|profiles|]);
    }
    forall u | u != p.userId
      ensures FindProfile(r, u) == FindProfile(profiles, u)
    {
      FirstIndexAgree(profiles, r, u);
    }
  }

  /** Two lists that agree on every profile with a user id other than `p.userId`... */
  lemma FirstIndexAgree(a: seq<UserProfile>, b: seq<UserProfile>, u: string)
    requires |a| <= |b|
    requires forall j :: 0 <= j < |a| ==> (a[j].userId == u <==> b[j].userId == u)
    requires forall j :: 0 <= j < |a| && a[j].userId == u ==> a[j] == b[j]
    requires forall j :: |a| <= j < |b| ==> b[j].userId != u
    ensures FindProfile(a, u) == FindProfile(b, u)
  {
    var ia := Sequences.FirstIndex(a, OfUser(u));
    var ib := Sequences.FirstIndex(b, OfUser(u));
    if ia.Some? {
      assert OfUser(u)(b[ia.value]);
      assert ib.Some? && ib.value <= ia.value;
    } else {
      assert forall j :: 0 <= j < |b| ==> !OfUser(u)(b[j]) by {
        forall j | 0 <= j < |b| ensures !OfUser(u)(b[j]) {
          if j < |a| {
            assert !OfUser(u)(a[j]);
          }
        }
      }
    }
  }

  /** The profile `createOrUpdateProfile` builds from the patch and the join date it settled on. */
  function BuildProfile(userId: string, updates: ProfilePatch, dateJoined: string): (p: UserProfile)
    ensures p.userId == userId
    ensures p.displayName == if Truthy(updates.displayName) then updates.displayName.value else DefaultDisplayName
    ensures p.displayName != ""
    ensures p.profilePicture == updates.profilePicture
    ensures p.dateJoined == dateJoined
    ensures p.totalSessionsCreated == updates.totalSessionsCreated.GetOr(0)
  {
    UserProfile(
      userId,
      if Truthy(updates.displayName) then updates.displayName.value else DefaultDisplayName,
      updates.profilePicture,
      dateJoined,
      updates.totalSessionsCreated.GetOr(0))
  }

  /** The first-login date the store holds for the user, if it holds a non-empty one. */
  function FirstLogin(firstLogin: map<string, string>, userId: string): (r: Option<string>)
    ensures r.Some? ==> userId in firstLogin && r.value == firstLogin[userId] && r.value != ""
    ensures r.None? <==> userId !in firstLogin || firstLogin[userId] == ""
  {
    if userId in firstLogin && firstLogin[userId] != "" then Some(firstLogin[userId]) else None
  }

  /**
   * The join date: the one given, else the stored first-login date, else now;
   * and the first-login dates afterwards, where now is recorded only in the last case.
   */
  function JoinDate(updates: ProfilePatch, firstLogin: map<string, string>, userId: string, now: string)
    : (r: (string, map<string, string>))
    ensures Truthy(updates.dateJoined) ==> r == (updates.dateJoined.value, firstLogin)
    ensures !Truthy(updates.dateJoined) && FirstLogin(firstLogin, userId).Some? ==>
      r == (FirstLogin(firstLogin, userId).value, firstLogin)
    ensures !Truthy(updates.dateJoined) && FirstLogin(firstLogin, userId).None? ==>
      r == (now, firstLogin[userId := now])
    ensures forall u :: u != userId ==> FirstLogin(r.1, u) == FirstLogin(firstLogin, u)
    ensures !Truthy(updates.dateJoined) && now != "" ==> FirstLogin(r.1, userId).Some?
  {
    if Truthy(updates.dateJoined) then (updates.dateJoined.value, firstLogin)
    else if FirstLogin(firstLogin, userId).Some? then (firstLogin[userId], firstLogin)
    else (now, firstLogin[userId := now])
  }

  /** Once the first-login date is recorded, later calls without a join date reuse it. */
  lemma JoinDateSticky(u1: ProfilePatch, u2: ProfilePatch, firstLogin: map<string, string>, userId: string, now1: string, now2: string)
    requires !Truthy(u1.dateJoined) && !Truthy(u2.dateJoined)
    requires now1 != ""
    ensures JoinDate(u2, JoinDate(u1, firstLogin, userId, now1).1, userId, now2).0
         == JoinDate(u1, firstLogin, userId, now1).0
  {
  }

  /** The profile of the user with the given patch fields taken from an existing profile. */
  function PatchOf(p: UserProfile): ProfilePatch {
    ProfilePatch(Some(p.userId), Some(p.displayName), p.profilePicture, Some(p.dateJoined), Some(p.totalSessionsCreated))
  }

  class ProfileStore {
    /** The `wellness_profiles` key. */
    var profiles: Slot<UserProfile>
    /** The `wellness_first_login_<userId>` keys. */
    var firstLogin: map<string, string>

    constructor (profiles: Slot<UserProfile>, firstLogin: map<string, string>)
      ensures this.profiles == profiles && this.firstLogin == firstLogin
    {
      this.profiles := profiles;
      this.firstLogin := firstLogin;
    }

    /** The user's first profile; null when there is none or the list does not parse. */
    function GetUserProfile(userId: string): (r: Option<UserProfile>)
      reads this
      ensures !profiles.Stored? ==> r.None?
      ensures r.None? <==> forall p :: p in profiles.Contents() ==> p.userId != userId
      ensures r.Some? ==> r.value.userId == userId && r.value in profiles.Contents()
      ensures r.Some? ==> exists i :: 0 <= i < |profiles.Contents()| && profiles.Contents()[i] == r.value &&
                                      forall j :: 0 <= j < i ==> profiles.Contents()[j].userId != userId
    {
      FindProfile(profiles.Contents(), userId)
    }

    /**
     * Builds the user's profile from `updates`, replaces the user's profile or
     * appends it, and returns it. When the list does not parse, nothing is
     * written and a default profile dated now is returned.
     */
    method CreateOrUpdateProfile(userId: string, updates: ProfilePatch, now: string) returns (p: UserProfile)
      modifies this
      ensures old(profiles).Unparseable? ==>
        && p == UserProfile(userId, DefaultDisplayName, None, now, 0)
        && profiles == old(profiles) && firstLogin == old(firstLogin)
      ensures !old(profiles).Unparseable? ==>
        var (dateJoined, logins) := JoinDate(updates, old(firstLogin), userId, now);
        && p == BuildProfile(userId, updates, dateJoined)
        && profiles == Stored(Upsert(old(profiles).Contents(), p))
        && firstLogin == logins
      ensures !old(profiles).Unparseable? ==>
        && GetUserProfile(userId) == Some(p)
        && (forall u :: u != userId ==> GetUserProfile(u) == old(GetUserProfile(u)))
        && (UniqueUsers(old(profiles).Contents()) ==> UniqueUsers(profiles.Contents()))
    {
      if profiles.Unparseable? {
        return UserProfile(userId, DefaultDisplayName, None, now, 0);
      }
      var list := profiles.Contents();
      var dateJoined: string;
      if Truthy(updates.dateJoined) {
        dateJoined := updates.dateJoined.value;
      } else if FirstLogin(firstLogin, userId).Some? {
        dateJoined := firstLogin[userId];
      } else {
        dateJoined := now;
        firstLogin := firstLogin[userId := now];
      }
      p := BuildProfile(userId, updates, dateJoined);
      UpsertSpec(list, p);
      profiles := Stored(Upsert(list, p));
    }

    /**
     * Re-saves the user's existing profile with a new display name (an empty
     * one becomes the default name); does nothing for a user without a profile.
     */
    method UpdateDisplayName(userId: string, displayName: string, now: string)
      modifies this
      ensures old(GetUserProfile(userId)).None? ==> profiles == old(profiles) && firstLogin == old(firstLogin)
      ensures old(GetUserProfile(userId)).Some? ==>
        var p := old(GetUserProfile(userId)).value;
        && GetUserProfile(userId) == Some(p.(displayName := if displayName != "" then displayName else DefaultDisplayName,
                                             dateJoined := JoinDate(PatchOf(p), old(firstLogin), userId, now).0))
        && firstLogin == JoinDate(PatchOf(p), old(firstLogin), userId, now).1
        && (p.dateJoined != "" ==> firstLogin == old(firstLogin))
        && (forall u :: u != userId ==> GetUserProfile(u) == old(GetUserProfile(u)))
    {
      var profile := GetUserProfile(userId);
      if profile.Some? {
        var _ := CreateOrUpdateProfile(userId, PatchOf(profile.value).(displayName := Some(displayName)), now);
      }
    }

    /** Re-saves the user's existing profile with a new picture; does nothing for a user without a profile. */
    method UpdateProfilePicture(userId: string, profilePicture: string, now: string)
      modifies this
      ensures old(GetUserProfile(userId)).None? ==> profiles == old(profiles) && firstLogin == old(firstLogin)
      ensures old(GetUserProfile(userId)).Some? ==>
        var p := old(GetUserProfile(userId)).value;
        && GetUserProfile(userId) == Some(p.(displayName := if p.displayName != "" then p.displayName else DefaultDisplayName,
                                             profilePicture := Some(profilePicture),
                                             dateJoined := JoinDate(PatchOf(p), old(firstLogin), userId, now).0))
        && firstLogin == JoinDate(PatchOf(p), old(firstLogin), userId, now).1
        && (p.dateJoined != "" ==> firstLogin == old(firstLogin))
        && (forall u :: u != userId ==> GetUserProfile(u) == old(GetUserProfile(u)))
    {
      var profile := GetUserProfile(userId);
      if profile.Some? {
        var _ := CreateOrUpdateProfile(userId, PatchOf(profile.value).(profilePicture := Some(profilePicture)), now);
      }
    }
  }
}
