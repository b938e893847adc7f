/** The dashboard's profile-completion score and its list of recent
    résumés. */
module DashboardPage {

  import opened Wrappers
  import opened JsMath
  import opened Profiles

  /** The six sections the score checks, in the order listed. */
  function Sections(p: Profile): (s: seq<bool>)
    ensures |s| == 6
  {
    [ p.personalInfo.firstName != "" && p.personalInfo.lastName != "",
      p.personalInfo.email != "" && p.personalInfo.phone != "",
      p.personalInfo.summary != "",
      |p.education| > 0,
      |p.experience| > 0,
      |p.skills| > 0 ]
  }

  /** `filter(Boolean).length`. */
  function CountTrue(s: seq<bool>): (n: nat)
    ensures n <= |s|
    ensures n == |s| <==> forall i :: 0 <= i < |s| ==> s[i]
    ensures n == 0 <==> forall i :: 0 <= i < |s| ==> !s[i]
  {
    if s == [] then 0 else CountTrue(s[1..]) + (if s[0] then 1 else 0)
  }

  function Completed(p: Profile): (k: nat)
    ensures k <= 6
  {
    CountTrue(Sections(p))
  }

  /** `calculateProfileCompletion()`: `round(100 * completed / 6)`, or 0
      without a profile. For `completed` between 0 and 6 the floating-point
      `(completed / 6) * 100` rounds to the same integer. */
  function Completion(profile: Option<Profile>): (r: nat)
    ensures r <= 100
    ensures profile.None? ==> r == 0
    ensures profile.Some? ==> 12 * r <= 200 * Completed(profile.value) + 6 < 12 * (r + 1)
  {
    if profile.None? then 0
    else
      RoundQuotient(100 * Completed(profile.value), 6)
  }

  /** The seven possible scores. */
  lemma CompletionValues(p: Profile)
    ensures var k := Completed(p); var r := Completion(Some(p));
      && (k == 0 ==> r == 0) && (k == 1 ==> r == 17) && (k == 2 ==> r == 33)
      && (k == 3 ==> r == 50) && (k == 4 ==> r == 67) && (k == 5 ==> r == 83)
      && (k == 6 ==> r == 100)
  {
  }

  /** 100 exactly when every section is filled in. */
  lemma CompletionFull(p: Profile)
    ensures Completion(Some(p)) == 100 <==> forall i :: 0 <= i < 6 ==> Sections(p)[i]
  {
    CompletionValues(p);
  }

  /** 0 exactly when no section is filled in. */
  lemma CompletionEmpty(p: Profile)
    ensures Completion(Some(p)) == 0 <==> forall i :: 0 <= i < 6 ==> !Sections(p)[i]
  {
    CompletionValues(p);
  }

  /** Projects and certifications do not enter the score. */
  lemma CompletionIgnores(p: Profile, projects: seq<Project>, certifications: seq<Certification>)
    ensures Completion(Some(p.(projects := projects, certifications := certifications)))
            == Completion(Some(p))
  {
    assert Sections(p.(projects := projects, certifications := certifications)) == Sections(p);
  }

  lemma {:induction false} CountTrueMonotone(s: seq<bool>, t: seq<bool>)
    requires |s| == |t|
    requires forall i :: 0 <= i < |s| && s[i] ==> t[i]
    ensures CountTrue(s) <= CountTrue(t)
    decreases |s|
  {
    if s != [] {
      CountTrueMonotone(s[1..], t[1..]);
    }
  }

  /** Filling in more sections never lowers the score. */
  lemma CompletionMonotone(p: Profile, q: Profile)
    requires forall i :: 0 <= i < 6 && Sections(p)[i] ==> Sections(q)[i]
    ensures Completion(Some(p)) <= Completion(Some(q))
  {
    CountTrueMonotone(Sections(p), Sections(q));
    RoundQuotientMonotone(100 * Completed(p), 100 * Completed(q), 6);
  }

  /** The demonstration profile scores 100. */
  lemma DemoProfileComplete()
    ensures Completion(Some(DemoProfile)) == 100
  {
    CompletionFull(DemoProfile);
  }

  /** `resumes.slice(0, 3)`. */
  function RecentResumes<T>(resumes: seq<T>): (r: seq<T>)
    ensures r <= resumes
    ensures |r| == Min(3, |resumes|)
  {
    resumes[..Min(3, |resumes|)]
  }
}
