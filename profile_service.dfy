/** The profile service: look up a user's profile (or a blank default),
    and save one by overwriting the stored entry or appending a new one. */
module ProfileService {

  import opened Wrappers
  import opened Collections
  import Profiles

  type Profile = Profiles.Profile

  /** The fields a save sends. A field the caller left out is `None`;
      `updatedAt` is not among them because the service always sets it. */
  datatype ProfilePatch = ProfilePatch(
    Id: Option<int>,
    userId: Option<int>,
    personalInfo: Option<Profiles.PersonalInfo>,
    education: Option<seq<Profiles.Education>>,
    experience: Option<seq<Profiles.Experience>>,
    skills: Option<seq<string>>,
    projects: Option<seq<Profiles.Project>>,
    certifications: Option<seq<Profiles.Certification>>,
    createdAt: Option<int>)

  /** The patch that saving a whole profile sends (the profile page saves
      the profile it edits). */
  function PatchOf(p: Profile): ProfilePatch {
    ProfilePatch(Some(p.Id), Some(p.userId), Some(p.personalInfo), Some(p.education),
                 Some(p.experience), Some(p.skills), Some(p.projects),
                 Some(p.certifications), p.createdAt)
  }

  function OrElse<T>(o: Option<T>, d: T): T {
    if o.Some? then o.value else d
  }

  /** Every field that `d` carries has `d`'s value in `p`. */
  predicate Includes(p: Profile, d: ProfilePatch) {
    && (d.Id.Some? ==> p.Id == d.Id.value)
    && (d.userId.Some? ==> p.userId == d.userId.value)
    && (d.personalInfo.Some? ==> p.personalInfo == d.personalInfo.value)
    && (d.education.Some? ==> p.education == d.education.value)
    && (d.experience.Some? ==> p.experience == d.experience.value)
    && (d.skills.Some? ==> p.skills == d.skills.value)
    && (d.projects.Some? ==> p.projects == d.projects.value)
    && (d.certifications.Some? ==> p.certifications == d.certifications.value)
    && (d.createdAt.Some? ==> p.createdAt == d.createdAt)
  }

  /** Every field that `d` leaves out has the same value in `p` as in `q`. */
  predicate Retains(p: Profile, q: Profile, d: ProfilePatch) {
    && (d.Id.None? ==> p.Id == q.Id)
    && (d.userId.None? ==> p.userId == q.userId)
    && (d.personalInfo.None? ==> p.personalInfo == q.personalInfo)
    && (d.education.None? ==> p.education == q.education)
    && (d.experience.None? ==> p.experience == q.experience)
    && (d.skills.None? ==> p.skills == q.skills)
    && (d.projects.None? ==> p.projects == q.projects)
    && (d.certifications.None? ==> p.certifications == q.certifications)
    && (d.createdAt.None? ==> p.createdAt == q.createdAt)
  }

  /** `{ ...p, ...d, updatedAt: now }`: the patch wins where it has a field,
      the old profile is kept where it has none. */
  function ApplyPatch(p: Profile, d: ProfilePatch, now: int): (r: Profile)
    ensures Includes(r, d) && Retains(r, p, d) && r.updatedAt == Some(now)
  {
    Profiles.Profile(
      OrElse(d.Id, p.Id), OrElse(d.userId, p.userId), OrElse(d.personalInfo, p.personalInfo),
      OrElse(d.education, p.education), OrElse(d.experience, p.experience),
      OrElse(d.skills, p.skills), OrElse(d.projects, p.projects),
      OrElse(d.certifications, p.certifications),
      if d.createdAt.Some? then d.createdAt else p.createdAt,
      Some(now))
  }

  /** Includes, Retains and the new `updatedAt` pin a profile down: the
      result of a patch is the only profile with those three properties. */
  lemma PatchDetermined(p: Profile, d: ProfilePatch, now: int, r: Profile)
    requires Includes(r, d) && Retains(r, p, d) && r.updatedAt == Some(now)
    ensures r == ApplyPatch(p, d, now)
  {
  }

  /** Saving a whole profile that has a `createdAt` over any stored one
      stores exactly it, with a new `updatedAt`. */
  lemma ApplyWholeProfile(q: Profile, p: Profile, now: int)
    requires p.createdAt.Some?
    ensures ApplyPatch(q, PatchOf(p), now) == p.(updatedAt := Some(now))
  {
  }

  /** `createDefaultProfile(userId)` with the next `Id` and the clock passed
      in. */
  function DefaultProfile(id: int, userId: int, now: int): (r: Profile)
    ensures r.Id == id && r.userId == userId
    ensures Profiles.IsBlankPersonalInfo(r.personalInfo)
    ensures r.education == [] && r.experience == [] && r.skills == []
    ensures r.projects == [] && r.certifications == []
    ensures r.createdAt == Some(now) && r.updatedAt == Some(now)
  {
    Profiles.Profile(id, userId, Profiles.BlankPersonalInfo, [], [], [], [], [], Some(now), Some(now))
  }

  /** A profile created by the first save of an unknown user:
      `{ Id: id, userId, ...d, updatedAt: now }`. Fields the patch leaves
      out are blank, where the source leaves them undefined; the one caller
      saves a profile read through `getProfile`, which carries every field,
      so the two never differ there. `createdAt` stays absent. */
  function NewProfile(id: int, userId: int, d: ProfilePatch, now: int): (r: Profile)
    ensures Includes(r, d) && r.updatedAt == Some(now)
    ensures d.Id.None? ==> r.Id == id
    ensures d.userId.None? ==> r.userId == userId
    ensures d.createdAt.None? ==> r.createdAt.None?
  {
    ApplyPatch(Profiles.Profile(id, userId, Profiles.BlankPersonalInfo, [], [], [], [], [], None, None), d, now)
  }

  function NextId(profiles: seq<Profile>): (id: int)
    requires profiles != []
    ensures forall i :: 0 <= i < |profiles| ==> profiles[i].Id < id
  {
    MaxKey(profiles, (p: Profile) => p.Id) + 1
  }

  /** `findIndex(p => p.userId === userId)`. */
  function FindByUser(profiles: seq<Profile>, userId: int): (r: Option<nat>)
    ensures r.Some? ==> r.value < |profiles| && profiles[r.value].userId == userId
    ensures r.Some? ==> forall j :: 0 <= j < r.value ==> profiles[j].userId != userId
    ensures r.None? ==> forall j :: 0 <= j < |profiles| ==> profiles[j].userId != userId
  {
    if profiles == [] then None
    else if profiles[0].userId == userId then Some(0)
    else
      var r := FindByUser(profiles[1..], userId);
      if r.Some? then Some(r.value + 1) else None
  }

  /** `getProfile(userId)`: the first stored profile of that user, or the
      default profile with the next `Id`; the store is not changed. */
  function GetProfile(profiles: seq<Profile>, userId: int, now: int): (r: Profile)
    requires profiles != []
    ensures forall j :: 0 <= j < |profiles| && profiles[j].userId == userId ==> r in profiles
    ensures r.userId == userId
    ensures (forall j :: 0 <= j < |profiles| ==> profiles[j].userId != userId) ==>
              r == DefaultProfile(NextId(profiles), userId, now)
  {
    var i := FindByUser(profiles, userId);
    if i.Some? then profiles[i.value] else DefaultProfile(NextId(profiles), userId, now)
  }

  /** The first stored profile of a user is what `getProfile` returns. */
  lemma GetProfileFound(profiles: seq<Profile>, userId: int, now: int, i: nat)
    requires profiles != [] && i < |profiles| && profiles[i].userId == userId
    requires forall j :: 0 <= j < i ==> profiles[j].userId != userId
    ensures GetProfile(profiles, userId, now) == profiles[i]
  {
    var f := FindByUser(profiles, userId);
    assert f.Some?;
    assert f.value == i;
  }

  /** The store after `updateProfile(userId, d)` at time `now`. */
  function Upserted(profiles: seq<Profile>, userId: int, d: ProfilePatch, now: int): (r: seq<Profile>)
    requires profiles != []
  {
    var i := FindByUser(profiles, userId);
    if i.Some? then profiles[i.value := ApplyPatch(profiles[i.value], d, now)]
    else profiles + [NewProfile(NextId(profiles), userId, d, now)]
  }

  /** The profile `updateProfile(userId, d)` returns. */
  function Saved(profiles: seq<Profile>, userId: int, d: ProfilePatch, now: int): (r: Profile)
    requires profiles != []
  {
    var i := FindByUser(profiles, userId);
    if i.Some? then ApplyPatch(profiles[i.value], d, now)
    else NewProfile(NextId(profiles), userId, d, now)
  }

  /** `mockProfiles` and the save operation over it. */
  class ProfileStore {
    var profiles: seq<Profile>

    constructor (initial: seq<Profile>)
      ensures profiles == initial
    {
      profiles := initial;
    }

    /** `updateProfile(userId, d)`, with the clock passed in. */
    method UpdateProfile(userId: int, d: ProfilePatch, now: int) returns (r: Profile)
      requires profiles != []
      modifies this
      ensures profiles == Upserted(old(profiles), userId, d, now)
      ensures r == Saved(old(profiles), userId, d, now)
      ensures r in profiles
    {
      var i := FindByUser(profiles, userId);
      if i.Some? {
        profiles := profiles[i.value := ApplyPatch(profiles[i.value], d, now)];
        r := profiles[i.value];
      } else {
        r := NewProfile(NextId(profiles), userId, d, now);
        profiles := profiles + [r];
      }
    }
  }

  /** Saving over an existing user keeps the store's length and the
      entry's position; the patch's fields override, the others are kept. */
  lemma UpdateExisting(profiles: seq<Profile>, userId: int, d: ProfilePatch, now: int, i: nat)
    requires profiles != [] && i < |profiles| && profiles[i].userId == userId
    requires forall j :: 0 <= j < i ==> profiles[j].userId != userId
    ensures var r := Upserted(profiles, userId, d, now);
      && |r| == |profiles|
      && Includes(r[i], d) && Retains(r[i], profiles[i], d) && r[i].updatedAt == Some(now)
      && (forall j :: 0 <= j < |r| && j != i ==> r[j] == profiles[j])
  {
    assert FindByUser(profiles, userId) == Some(i);
  }

  /** Saving for an unknown user appends exactly one profile, numbered one
      past the largest `Id` unless the patch brings its own. */
  lemma UpdateNew(profiles: seq<Profile>, userId: int, d: ProfilePatch, now: int)
    requires profiles != []
    requires forall j :: 0 <= j < |profiles| ==> profiles[j].userId != userId
    ensures var r := Upserted(profiles, userId, d, now);
      && |r| == |profiles| + 1 && r[..|profiles|] == profiles
      && Includes(r[|profiles|], d)
      && r[|profiles|].Id == OrElse(d.Id, MaxKey(profiles, (p: Profile) => p.Id) + 1)
      && r[|profiles|].userId == OrElse(d.userId, userId)
  {
    var r := Upserted(profiles, userId, d, now);
    assert r == profiles + [NewProfile(NextId(profiles), userId, d, now)];
    assert r[..|profiles|] == profiles;
  }

  /** No other user's stored profile changes. */
  lemma UpdateOthersUnchanged(profiles: seq<Profile>, userId: int, d: ProfilePatch, now: int, j: nat)
    requires profiles != [] && j < |profiles| && profiles[j].userId != userId
    ensures j < |Upserted(profiles, userId, d, now)|
    ensures Upserted(profiles, userId, d, now)[j] == profiles[j]
  {
  }

  /** Reading a user's profile back after a save that keeps its `userId`
      gives a profile carrying every field of the save. */
  lemma GetAfterUpdate(profiles: seq<Profile>, userId: int, d: ProfilePatch, now: int, later: int)
    requires profiles != []
    requires d.userId.None? || d.userId == Some(userId)
    ensures var p := GetProfile(Upserted(profiles, userId, d, now), userId, later);
      Includes(p, d) && p.updatedAt == Some(now)
  {
    var r := Upserted(profiles, userId, d, now);
    var f := FindByUser(profiles, userId);
    if f.Some? {
      var i := f.value;
      forall j | 0 <= j < i ensures r[j].userId != userId {
        assert r[j] == profiles[j];
      }
      GetProfileFound(r, userId, later, i);
    } else {
      forall j | 0 <= j < |profiles| ensures r[j].userId != userId {
        assert r[j] == profiles[j];
      }
      GetProfileFound(r, userId, later, |profiles|);
    }
  }
}
