/** The editing helpers of the profile page. Each one builds a new profile
    from the current one: a personal-information field set, a skill added
    or removed, and entries added, removed or edited by `id` in the
    experience, education, project and certification lists. */
module ProfilePage {

  import opened Text
  import opened Collections
  import opened Profiles

  // ---------------------------------------------------------------------
  // Personal information
  // ---------------------------------------------------------------------

  datatype PersonalField =
    FirstName | LastName | Email | Phone | Address | City | State | ZipCode | LinkedIn | Website | Summary

  function GetPersonal(p: PersonalInfo, f: PersonalField): string {
    match f
    case FirstName => p.firstName
    case LastName => p.lastName
    case Email => p.email
    case Phone => p.phone
    case Address => p.address
    case City => p.city
    case State => p.state
    case ZipCode => p.zipCode
    case LinkedIn => p.linkedIn
    case Website => p.website
    case Summary => p.summary
  }

  /** `{ ...p, [f]: v }`. */
  function SetPersonal(p: PersonalInfo, f: PersonalField, v: string): (r: PersonalInfo)
    ensures GetPersonal(r, f) == v
    ensures forall g :: g != f ==> GetPersonal(r, g) == GetPersonal(p, g)
  {
    match f
    case FirstName => p.(firstName := v)
    case LastName => p.(lastName := v)
    case Email => p.(email := v)
    case Phone => p.(phone := v)
    case Address => p.(address := v)
    case City => p.(city := v)
    case State => p.(state := v)
    case ZipCode => p.(zipCode := v)
    case LinkedIn => p.(linkedIn := v)
    case Website => p.(website := v)
    case Summary => p.(summary := v)
  }

  /** Personal information is nothing but its eleven fields. */
  lemma PersonalExtensional(p: PersonalInfo, q: PersonalInfo)
    requires forall g :: GetPersonal(p, g) == GetPersonal(q, g)
    ensures p == q
  {
    assert GetPersonal(p, FirstName) == GetPersonal(q, FirstName);
    assert GetPersonal(p, LastName) == GetPersonal(q, LastName);
    assert GetPersonal(p, Email) == GetPersonal(q, Email);
    assert GetPersonal(p, Phone) == GetPersonal(q, Phone);
    assert GetPersonal(p, Address) == GetPersonal(q, Address);
    assert GetPersonal(p, City) == GetPersonal(q, City);
    assert GetPersonal(p, State) == GetPersonal(q, State);
    assert GetPersonal(p, ZipCode) == GetPersonal(q, ZipCode);
    assert GetPersonal(p, LinkedIn) == GetPersonal(q, LinkedIn);
    assert GetPersonal(p, Website) == GetPersonal(q, Website);
    assert GetPersonal(p, Summary) == GetPersonal(q, Summary);
  }

  /** `updatePersonalInfo(field, value)`: that field takes the value and
      nothing else in the profile changes. */
  function UpdatePersonalInfo(profile: Profile, f: PersonalField, v: string): (r: Profile)
    ensures GetPersonal(r.personalInfo, f) == v
    ensures forall g :: g != f ==> GetPersonal(r.personalInfo, g) == GetPersonal(profile.personalInfo, g)
    ensures r == profile.(personalInfo := r.personalInfo)
  {
    profile.(personalInfo := SetPersonal(profile.personalInfo, f, v))
  }

  /** Setting a field to the value it already has changes nothing. */
  lemma UpdatePersonalInfoSame(profile: Profile, f: PersonalField)
    ensures UpdatePersonalInfo(profile, f, GetPersonal(profile.personalInfo, f)) == profile
  {
    var r := UpdatePersonalInfo(profile, f, GetPersonal(profile.personalInfo, f));
    PersonalExtensional(r.personalInfo, profile.personalInfo);
  }

  // ---------------------------------------------------------------------
  // Skills
  // ---------------------------------------------------------------------

  /** `addSkill()`: the page's profile and the skill input afterwards.
      The trimmed input is appended when it is not blank and not already
      listed, and the input is cleared; otherwise both stay as they were. */
  function AddSkill(profile: Profile, newSkill: string): (r: (Profile, string))
    ensures var t := Trim(newSkill);
      if t != [] && t !in profile.skills
      then r.0 == profile.(skills := profile.skills + [t]) && r.1 == ""
      else r == (profile, newSkill)
  {
    var t := Trim(newSkill);
    if t != [] && t !in profile.skills then (profile.(skills := profile.skills + [t]), "")
    else (profile, newSkill)
  }

  /** Adding a skill keeps the skill list free of duplicates. */
  lemma AddSkillDistinct(profile: Profile, newSkill: string)
    requires Distinct(profile.skills)
    ensures Distinct(AddSkill(profile, newSkill).0.skills)
  {
  }

  /** Only non-blank skills without surrounding whitespace are ever added. */
  lemma AddSkillTrimmed(profile: Profile, newSkill: string)
    ensures var s := AddSkill(profile, newSkill).0.skills;
      forall i :: |profile.skills| <= i < |s| ==> s[i] != [] && !IsSpace(s[i][0]) && !IsSpace(s[i][|s[i]| - 1])
  {
  }

  /** Typing the same skill again, with any surrounding whitespace, adds
      nothing. */
  lemma AddSkillTwice(profile: Profile, newSkill: string, again: string)
    requires Trim(again) == Trim(newSkill)
    ensures var p := AddSkill(profile, newSkill).0; AddSkill(p, again).0 == p
  {
  }

  /** `removeSkill(s)`: every occurrence of `s` goes, the rest stay. */
  function RemoveSkill(profile: Profile, skill: string): (r: Profile)
    ensures forall x :: x in r.skills <==> x in profile.skills && x != skill
    ensures r == profile.(skills := r.skills)
  {
    profile.(skills := Filter(profile.skills, x => x != skill))
  }

  /** The remaining skills keep their order, and each keeps all its
      occurrences. */
  lemma RemoveSkillOrder(profile: Profile, skill: string, x: string)
    ensures IsSubsequence(RemoveSkill(profile, skill).skills, profile.skills)
    ensures multiset(RemoveSkill(profile, skill).skills)[x] == if x == skill then 0 else multiset(profile.skills)[x]
  {
    FilterIsSubsequence(profile.skills, y => y != skill);
    FilterMultiset(profile.skills, y => y != skill, x);
  }

  /** Removing a skill just added gives back the profile it was added to. */
  lemma AddThenRemoveSkill(profile: Profile, newSkill: string)
    requires Trim(newSkill) != [] && Trim(newSkill) !in profile.skills
    ensures RemoveSkill(AddSkill(profile, newSkill).0, Trim(newSkill)) == profile
  {
    var t := Trim(newSkill);
    var s := profile.skills + [t];
    assert s[..|s| - 1] == profile.skills;
    FilterAll(profile.skills, y => y != t);
  }

  // ---------------------------------------------------------------------
  // Experience
  // ---------------------------------------------------------------------

  datatype ExperienceField = ExpTitle | ExpCompany | ExpLocation | ExpStartDate | ExpEndDate | ExpDescription

  function GetExperience(e: Experience, f: ExperienceField): string {
    match f
    case ExpTitle => e.title
    case ExpCompany => e.company
    case ExpLocation => e.location
    case ExpStartDate => e.startDate
    case ExpEndDate => e.endDate
    case ExpDescription => e.description
  }

  function SetExperience(e: Experience, f: ExperienceField, v: string): (r: Experience)
    ensures r.id == e.id && GetExperience(r, f) == v
    ensures forall g :: g != f ==> GetExperience(r, g) == GetExperience(e, g)
  {
    match f
    case ExpTitle => e.(title := v)
    case ExpCompany => e.(company := v)
    case ExpLocation => e.(location := v)
    case ExpStartDate => e.(startDate := v)
    case ExpEndDate => e.(endDate := v)
    case ExpDescription => e.(description := v)
  }

  function ExperienceId(e: Experience): int { e.id }

  /** `addExperience()`, with the new `id` passed in. */
  function AddExperience(profile: Profile, id: int): (r: Profile)
    ensures |r.experience| == |profile.experience| + 1
    ensures r.experience[..|profile.experience|] == profile.experience
    ensures var e := r.experience[|profile.experience|];
      e.id == id && forall g :: GetExperience(e, g) == ""
    ensures r == profile.(experience := r.experience)
  {
    var r := profile.(experience := profile.experience + [Experience(id, "", "", "", "", "", "")]);
    assert r.experience[..|profile.experience|] == profile.experience;
    r
  }

  /** `removeExperience(id)`. */
  function RemoveExperience(profile: Profile, id: int): (r: Profile)
    ensures forall e :: e in r.experience <==> e in profile.experience && e.id != id
    ensures r == profile.(experience := r.experience)
  {
    profile.(experience := Filter(profile.experience, (e: Experience) => e.id != id))
  }

  /** `updateExperience(id, field, value)`. */
  function UpdateExperience(profile: Profile, id: int, f: ExperienceField, v: string): (r: Profile)
    ensures |r.experience| == |profile.experience|
    ensures forall i :: 0 <= i < |r.experience| ==>
              r.experience[i] == if profile.experience[i].id == id
                                 then SetExperience(profile.experience[i], f, v) else profile.experience[i]
    ensures r == profile.(experience := r.experience)
  {
    profile.(experience := UpdateWhere(profile.experience, (e: Experience) => e.id == id,
                                       (e: Experience) => SetExperience(e, f, v)))
  }

  /** Adding with a fresh `id` keeps experience `id`s unique. */
  lemma AddExperienceUnique(profile: Profile, id: int)
    requires UniqueKeys(profile.experience, ExperienceId)
    requires forall i :: 0 <= i < |profile.experience| ==> profile.experience[i].id != id
    ensures UniqueKeys(AddExperience(profile, id).experience, ExperienceId)
  {
    AppendFreshKey(profile.experience, Experience(id, "", "", "", "", "", ""), ExperienceId);
  }

  /** Removing keeps the other entries in order and keeps `id`s unique. */
  lemma RemoveExperienceOrder(profile: Profile, id: int)
    ensures IsSubsequence(RemoveExperience(profile, id).experience, profile.experience)
    ensures UniqueKeys(profile.experience, ExperienceId) ==>
              UniqueKeys(RemoveExperience(profile, id).experience, ExperienceId)
  {
    FilterIsSubsequence(profile.experience, (e: Experience) => e.id != id);
    if UniqueKeys(profile.experience, ExperienceId) {
      FilterUniqueKeys(profile.experience, (e: Experience) => e.id != id, ExperienceId);
    }
  }

  // ---------------------------------------------------------------------
  // Education
  // ---------------------------------------------------------------------

  datatype EducationField =
    EduDegree | EduSchool | EduLocation | EduStartDate | EduEndDate | EduGpa | EduDescription

  function GetEducation(e: Education, f: EducationField): string {
    match f
    case EduDegree => e.degree
    case EduSchool => e.school
    case EduLocation => e.location
    case EduStartDate => e.startDate
    case EduEndDate => e.endDate
    case EduGpa => e.gpa
    case EduDescription => e.description
  }

  function SetEducation(e: Education, f: EducationField, v: string): (r: Education)
    ensures r.id == e.id && GetEducation(r, f) == v
    ensures forall g :: g != f ==> GetEducation(r, g) == GetEducation(e, g)
  {
    match f
    case EduDegree => e.(degree := v)
    case EduSchool => e.(school := v)
    case EduLocation => e.(location := v)
    case EduStartDate => e.(startDate := v)
    case EduEndDate => e.(endDate := v)
    case EduGpa => e.(gpa := v)
    case EduDescription => e.(description := v)
  }

  function EducationId(e: Education): int { e.id }

  /** `addEducation()`, with the new `id` passed in. */
  function AddEducation(profile: Profile, id: int): (r: Profile)
    ensures |r.education| == |profile.education| + 1
    ensures r.education[..|profile.education|] == profile.education
    ensures var e := r.education[|profile.education|];
      e.id == id && forall g :: GetEducation(e, g) == ""
    ensures r == profile.(education := r.education)
  {
    var r := profile.(education := profile.education + [Education(id, "", "", "", "", "", "", "")]);
    assert r.education[..|profile.education|] == profile.education;
    r
  }

  /** `removeEducation(id)`. */
  function RemoveEducation(profile: Profile, id: int): (r: Profile)
    ensures forall e :: e in r.education <==> e in profile.education && e.id != id
    ensures r == profile.(education := r.education)
  {
    profile.(education := Filter(profile.education, (e: Education) => e.id != id))
  }

  /** `updateEducation(id, field, value)`. */
  function UpdateEducation(profile: Profile, id: int, f: EducationField, v: string): (r: Profile)
    ensures |r.education| == |profile.education|
    ensures forall i :: 0 <= i < |r.education| ==>
              r.education[i] == if profile.education[i].id == id
                                then SetEducation(profile.education[i], f, v) else profile.education[i]
    ensures r == profile.(education := r.education)
  {
    profile.(education := UpdateWhere(profile.education, (e: Education) => e.id == id,
                                      (e: Education) => SetEducation(e, f, v)))
  }

  lemma AddEducationUnique(profile: Profile, id: int)
    requires UniqueKeys(profile.education, EducationId)
    requires forall i :: 0 <= i < |profile.education| ==> profile.education[i].id != id
    ensures UniqueKeys(AddEducation(profile, id).education, EducationId)
  {
    AppendFreshKey(profile.education, Education(id, "", "", "", "", "", "", ""), EducationId);
  }

  lemma RemoveEducationOrder(profile: Profile, id: int)
    ensures IsSubsequence(RemoveEducation(profile, id).education, profile.education)
    ensures UniqueKeys(profile.education, EducationId) ==>
              UniqueKeys(RemoveEducation(profile, id).education, EducationId)
  {
    FilterIsSubsequence(profile.education, (e: Education) => e.id != id);
    if UniqueKeys(profile.education, EducationId) {
      FilterUniqueKeys(profile.education, (e: Education) => e.id != id, EducationId);
    }
  }

  // ---------------------------------------------------------------------
  // Projects
  // ---------------------------------------------------------------------

  /** The project fields the page edits; `technologies` is not one of them. */
  datatype ProjectField = ProjTitle | ProjDescription | ProjUrl | ProjStartDate | ProjEndDate

  function GetProject(p: Project, f: ProjectField): string {
    match f
    case ProjTitle => p.title
    case ProjDescription => p.description
    case ProjUrl => p.url
    case ProjStartDate => p.startDate
    case ProjEndDate => p.endDate
  }

  function SetProject(p: Project, f: ProjectField, v: string): (r: Project)
    ensures r.id == p.id && r.technologies == p.technologies && GetProject(r, f) == v
    ensures forall g :: g != f ==> GetProject(r, g) == GetProject(p, g)
  {
    match f
    case ProjTitle => p.(title := v)
    case ProjDescription => p.(description := v)
    case ProjUrl => p.(url := v)
    case ProjStartDate => p.(startDate := v)
    case ProjEndDate => p.(endDate := v)
  }

  function ProjectId(p: Project): int { p.id }

  /** `addProject()`, with the new `id` passed in. */
  function AddProject(profile: Profile, id: int): (r: Profile)
    ensures |r.projects| == |profile.projects| + 1
    ensures r.projects[..|profile.projects|] == profile.projects
    ensures var p := r.projects[|profile.projects|];
      p.id == id && p.technologies == [] && forall g :: GetProject(p, g) == ""
    ensures r == profile.(projects := r.projects)
  {
    var r := profile.(projects := profile.projects + [Project(id, "", "", [], "", "", "")]);
    assert r.projects[..|profile.projects|] == profile.projects;
    r
  }

  /** `removeProject(id)`. */
  function RemoveProject(profile: Profile, id: int): (r: Profile)
    ensures forall p :: p in r.projects <==> p in profile.projects && p.id != id
    ensures r == profile.(projects := r.projects)
  {
    profile.(projects := Filter(profile.projects, (p: Project) => p.id != id))
  }

  /** `updateProject(id, field, value)`. */
  function UpdateProject(profile: Profile, id: int, f: ProjectField, v: string): (r: Profile)
    ensures |r.projects| == |profile.projects|
    ensures forall i :: 0 <= i < |r.projects| ==>
              r.projects[i] == if profile.projects[i].id == id
                               then SetProject(profile.projects[i], f, v) else profile.projects[i]
    ensures r == profile.(projects := r.projects)
  {
    profile.(projects := UpdateWhere(profile.projects, (p: Project) => p.id == id,
                                     (p: Project) => SetProject(p, f, v)))
  }

  lemma AddProjectUnique(profile: Profile, id: int)
    requires UniqueKeys(profile.projects, ProjectId)
    requires forall i :: 0 <= i < |profile.projects| ==> profile.projects[i].id != id
    ensures UniqueKeys(AddProject(profile, id).projects, ProjectId)
  {
    AppendFreshKey(profile.projects, Project(id, "", "", [], "", "", ""), ProjectId);
  }

  lemma RemoveProjectOrder(profile: Profile, id: int)
    ensures IsSubsequence(RemoveProject(profile, id).projects, profile.projects)
    ensures UniqueKeys(profile.projects, ProjectId) ==>
              UniqueKeys(RemoveProject(profile, id).projects, ProjectId)
  {
    FilterIsSubsequence(profile.projects, (p: Project) => p.id != id);
    if UniqueKeys(profile.projects, ProjectId) {
      FilterUniqueKeys(profile.projects, (p: Project) => p.id != id, ProjectId);
    }
  }

  // ---------------------------------------------------------------------
  // Certifications
  // ---------------------------------------------------------------------

  datatype CertificationField = CertName | CertIssuer | CertIssueDate | CertExpiryDate | CertCredentialId

  function GetCertification(c: Certification, f: CertificationField): string {
    match f
    case CertName => c.name
    case CertIssuer => c.issuer
    case CertIssueDate => c.issueDate
    case CertExpiryDate => c.expiryDate
    case CertCredentialId => c.credentialId
  }

  function SetCertification(c: Certification, f: CertificationField, v: string): (r: Certification)
    ensures r.id == c.id && GetCertification(r, f) == v
    ensures forall g :: g != f ==> GetCertification(r, g) == GetCertification(c, g)
  {
    match f
    case CertName => c.(name := v)
    case CertIssuer => c.(issuer := v)
    case CertIssueDate => c.(issueDate := v)
    case CertExpiryDate => c.(expiryDate := v)
    case CertCredentialId => c.(credentialId := v)
  }

  function CertificationId(c: Certification): int { c.id }

  /** `addCertification()`, with the new `id` passed in. */
  function AddCertification(profile: Profile, id: int): (r: Profile)
    ensures |r.certifications| == |profile.certifications| + 1
    ensures r.certifications[..|profile.certifications|] == profile.certifications
    ensures var c := r.certifications[|profile.certifications|];
      c.id == id && forall g :: GetCertification(c, g) == ""
    ensures r == profile.(certifications := r.certifications)
  {
    var r := profile.(certifications := profile.certifications + [Certification(id, "", "", "", "", "")]);
    assert r.certifications[..|profile.certifications|] == profile.certifications;
    r
  }

  /** `removeCertification(id)`. */
  function RemoveCertification(profile: Profile, id: int): (r: Profile)
    ensures forall c :: c in r.certifications <==> c in profile.certifications && c.id != id
    ensures r == profile.(certifications := r.certifications)
  {
    profile.(certifications := Filter(profile.certifications, (c: Certification) => c.id != id))
  }

  /** `updateCertification(id, field, value)`. */
  function UpdateCertification(profile: Profile, id: int, f: CertificationField, v: string): (r: Profile)
    ensures |r.certifications| == |profile.certifications|
    ensures forall i :: 0 <= i < |r.certifications| ==>
              r.certifications[i] == if profile.certifications[i].id == id
                                     then SetCertification(profile.certifications[i], f, v)
                                     else profile.certifications[i]
    ensures r == profile.(certifications := r.certifications)
  {
    profile.(certifications := UpdateWhere(profile.certifications, (c: Certification) => c.id == id,
                                           (c: Certification) => SetCertification(c, f, v)))
  }

  lemma AddCertificationUnique(profile: Profile, id: int)
    requires UniqueKeys(profile.certifications, CertificationId)
    requires forall i :: 0 <= i < |profile.certifications| ==> profile.certifications[i].id != id
    ensures UniqueKeys(AddCertification(profile, id).certifications, CertificationId)
  {
    AppendFreshKey(profile.certifications, Certification(id, "", "", "", "", ""), CertificationId);
  }

  lemma RemoveCertificationOrder(profile: Profile, id: int)
    ensures IsSubsequence(RemoveCertification(profile, id).certifications, profile.certifications)
    ensures UniqueKeys(profile.certifications, CertificationId) ==>
              UniqueKeys(RemoveCertification(profile, id).certifications, CertificationId)
  {
    FilterIsSubsequence(profile.certifications, (c: Certification) => c.id != id);
    if UniqueKeys(profile.certifications, CertificationId) {
      FilterUniqueKeys(profile.certifications, (c: Certification) => c.id != id, CertificationId);
    }
  }

  /** Editing a field of an experience entry changes no `id`, so `id`s stay unique. */
  lemma UpdateExperienceKeepsIds(profile: Profile, id: int, f: ExperienceField, v: string)
    requires UniqueKeys(profile.experience, ExperienceId)
    ensures UniqueKeys(UpdateExperience(profile, id, f, v).experience, ExperienceId)
  {
  }

  /** Editing a field of an education entry changes no `id`, so `id`s stay unique. */
  lemma UpdateEducationKeepsIds(profile: Profile, id: int, f: EducationField, v: string)
    requires UniqueKeys(profile.education, EducationId)
    ensures UniqueKeys(UpdateEducation(profile, id, f, v).education, EducationId)
  {
  }

  /** Editing a field of a project changes no `id`, so `id`s stay unique. */
  lemma UpdateProjectKeepsIds(profile: Profile, id: int, f: ProjectField, v: string)
    requires UniqueKeys(profile.projects, ProjectId)
    ensures UniqueKeys(UpdateProject(profile, id, f, v).projects, ProjectId)
  {
  }

  /** Editing a field of a certification changes no `id`, so `id`s stay unique. */
  lemma UpdateCertificationKeepsIds(profile: Profile, id: int, f: CertificationField, v: string)
    requires UniqueKeys(profile.certifications, CertificationId)
    ensures UniqueKeys(UpdateCertification(profile, id, f, v).certifications, CertificationId)
  {
  }
}
