# Résumé builder core, modelled in Dafny

This project models the deterministic logic behind a browser résumé builder that has no backend. Its services keep their data in in-memory arrays. The model covers:

- the job-description keyword extractor: three fixed vocabularies matched by substring, plus a "N+ years … experience" scanner and a match-strength threshold;
- the résumé store: generate, list, delete, download and view counters, the profile-to-résumé matcher, and the analytics report with its six monthly buckets;
- the profile store: `getProfile`, `updateProfile` (an upsert keyed by `userId`) and the default profile;
- the mock authentication store: login, registration, and the `mock-jwt-token-<Id>` token and its decoding;
- the profile page's list and record edits: skills, experience, education, projects and certifications;
- the dashboard's completion score and its recent-résumés slice;
- the history page's filter, in-place sort, local delete and statistics counts;
- the generate-résumé page's three-step wizard.

Stores and the wizard are classes whose fields the methods update. Each method is specified by a module-level function over sequences, and the lemmas speak about those functions. Service calls, clocks and random values are passed in as parameters: `now`, `createdAt`, a `HistoryRecord`, a `fill` function and the outcome of a service call.

Files:
- `wrappers.dfy`: `Option` and `Result`.
- `text.dfy`: ASCII `toLowerCase`, `includes`, `trim`, integer printing, `split('-').pop()` and `parseInt`.
- `collections.dfy`: `filter`, `map`-update, `Math.max` over keys, and a descending sort.
- `jsmath.dfy`: `Math.min` and `Math.round(p / q)` in integers.
- `job_analysis.dfy`, `resume_service.dfy`, `profile_service.dfy`, `auth_service.dfy`: one file per service.
- `profiles.dfy`: the profile records and the demonstration profile.
- `profile_page.dfy`, `dashboard_page.dfy`, `history_page.dfy`, `generate_page.dfy`: one file per page.

Timestamps are integers (milliseconds). A calendar month is an integer ordinal (`12 * year + month`), so "the last six months" is the ordinals `current - 5 .. current`.

## Model

| member | source | states |
|---|---|---|
| Text.Lower | src/services/api/jobAnalysisService.js:31 | `toLowerCase` keeps the length and lowers each character; the result has no upper-case letter (`LowerIsLowerCase`) and lowering twice changes nothing (`LowerIdempotent`) |
| Text.ContainsIff | src/services/api/jobAnalysisService.js:61 | `includes` holds exactly when the word occurs at some index |
| Text.Trim | src/components/pages/ProfilePage.jsx:576 | `trim` drops leading and trailing white space; the result is empty exactly when the input is blank, and otherwise starts and ends with a non-space |
| Text.TrimIdempotent | src/components/pages/ProfilePage.jsx:576 | trimming twice is trimming once |
| Text.LastSegmentAfter | src/services/api/authService.js:56 | `split('-').pop()` of `p + "-" + q` is `q` when `q` has no `-` |
| Text.ParseIntOfNatToString | src/services/api/authService.js:56 | `parseInt` reads back the decimal text of every natural number |
| Collections.Filter | src/services/api/resumeService.js:126 | a filter keeps exactly the elements that satisfy the predicate |
| Collections.FilterIsSubsequence | src/services/api/resumeService.js:39 | a filter keeps the survivors in their original order |
| Collections.FilterMultiset | src/services/api/resumeService.js:39 | a filter keeps every copy of an element that passes and none of one that fails |
| Collections.UpdateWhere | src/components/pages/ProfilePage.jsx:272-274 | `map(x => sel(x) ? f(x) : x)` keeps the length and changes only the selected entries |
| Collections.MaxKey | src/services/api/resumeService.js:14 | `Math.max(...ids)` of a non-empty list is an id that appears and bounds every id |
| Collections.SortDesc | src/services/api/resumeService.js:40 | sorting newest first gives a descending permutation of the input |
| JsMath.RoundQuotient | src/components/pages/DashboardPage.jsx:59 | `Math.round(p / q)` for `p >= 0`, `q > 0` is the integer `r` with `2qr <= 2p + q < 2q(r + 1)` |
| JsMath.RoundQuotientMonotone | src/components/pages/DashboardPage.jsx:59 | the rounded quotient grows with the numerator |
| JobAnalysis.FoundMembers | src/services/api/jobAnalysisService.js:60-76 | a vocabulary term is found exactly when it occurs in the lower-cased text |
| JobAnalysis.FoundIsFilter | src/services/api/jobAnalysisService.js:60-76 | the found terms are the vocabulary filtered by containment |
| JobAnalysis.FoundIsSubsequence | src/services/api/jobAnalysisService.js:60-64 | the found terms keep vocabulary order |
| JobAnalysis.FoundDistinct | src/services/api/jobAnalysisService.js:60-64 | a duplicate-free vocabulary gives duplicate-free results |
| JobAnalysis.KeywordsDistinct | src/services/api/jobAnalysisService.js:34-76 | none of the three keyword lists holds a term twice |
| JobAnalysis.TechSkillsDistinct | src/services/api/jobAnalysisService.js:34-41 | the technical-skill vocabulary lists no term twice |
| JobAnalysis.SoftSkillsDistinct | src/services/api/jobAnalysisService.js:44-48 | the soft-skill vocabulary lists no term twice |
| JobAnalysis.ExperienceLevelsDistinct | src/services/api/jobAnalysisService.js:51-54 | the experience-level vocabulary lists no term twice |
| JobAnalysis.FindTerms | src/services/api/jobAnalysisService.js:56-76 | the `forEach`/`push` loop builds exactly the found list |
| JobAnalysis.MatchAt | src/services/api/jobAnalysisService.js:79 | a match of the years pattern at `i` ends after `i` and inside the text |
| JobAnalysis.SplitMatches | src/services/api/jobAnalysisService.js:79 | every layout of `(\d+)\+?\s*years?\s*(of\s+)?experience` from `i` to `e` is what the scan matches from `i` |
| JobAnalysis.MatchSplits | src/services/api/jobAnalysisService.js:79 | what the scan matches from `i` is laid out as that pattern |
| JobAnalysis.MatchIffPhrase | src/services/api/jobAnalysisService.js:79 | the scan from `i` ends at `e` exactly when `t[i..e]` is a whole match of the pattern (`IsYearsPhrase`), so a phrase from `i` has one end |
| JobAnalysis.MatchShape | src/services/api/jobAnalysisService.js:79 | a match starts with a digit and ends with "experience" |
| JobAnalysis.FirstYears | src/services/api/jobAnalysisService.js:79-80 | `yearsRequired` is absent exactly when the pattern matches nowhere |
| JobAnalysis.FirstSome | src/services/api/jobAnalysisService.js:79-80 | the position reported is the first successful attempt, every earlier attempt failing, and none is reported only when all fail |
| JobAnalysis.MatchedText | src/services/api/jobAnalysisService.js:79 | the text a match covers has at least 11 characters, a leading digit and the word "experience" at its end |
| JobAnalysis.FirstYearsNone | src/services/api/jobAnalysisService.js:79-80 | `yearsRequired` is absent exactly when no slice of the text is a years phrase |
| JobAnalysis.FirstYearsLeftmost | src/services/api/jobAnalysisService.js:79-80 | a reported `yearsRequired` is a slice that is a years phrase, and no years phrase starts further left |
| JobAnalysis.FirstYearsShape | src/services/api/jobAnalysisService.js:79-80 | a reported `yearsRequired` starts with a digit and ends with "experience" |
| JobAnalysis.MatchStrength | src/services/api/jobAnalysisService.js:91-96 | `high` iff tech + soft >= 8, `medium` iff 4 <= total < 8, `low` iff total < 4 |
| JobAnalysis.ExtractKeywords | src/services/api/jobAnalysisService.js:30-89 | each of the three lists holds exactly its vocabulary's terms that occur in the lower-cased text |
| JobAnalysis.CaseInsensitive | src/services/api/jobAnalysisService.js:31 | extracting from a text and from its lower-cased form gives the same keywords |
| JobAnalysis.JavaFromJavascript | src/services/api/jobAnalysisService.js:35-36 | a text containing "javascript" also yields "java" |
| JobAnalysis.LeadFromLeadership | src/services/api/jobAnalysisService.js:45-51 | a text containing "leadership" yields soft skill "leadership" and level "lead" |
| JobAnalysis.EmptyDescription | src/services/api/jobAnalysisService.js:30-96 | empty text gives three empty lists, no years and `low` |
| JobAnalysis.YearsAtStart | src/services/api/jobAnalysisService.js:79-80 | a text starting with "5+ years experience" reports exactly that phrase |
| JobAnalysis.PostingShape | src/services/api/jobAnalysisService.js:30-96 | a posting like the worked example yields react and node.js, leadership and communication, level "lead", the years phrase, and a strength above `low` |
| JobAnalysis.AnalysisStore.AnalyzeJobDescription | src/services/api/jobAnalysisService.js:4-20 | appends exactly one analysis, with `Id` = max + 1 and the extracted keywords |
| JobAnalysis.NextAnalysisId | src/services/api/jobAnalysisService.js:11 | the new `Id` is above every stored `Id` and one past one of them, i.e. max + 1 |
| JobAnalysis.GetAnalyses | src/services/api/jobAnalysisService.js:22-28 | exactly the user's analyses, in a newest-first permutation |
| ProfileService.ApplyPatch | src/services/api/profileService.js:31-35 | the saved profile has every field the patch gives, keeps every field it omits, and takes the new `updatedAt` |
| ProfileService.PatchDetermined | src/services/api/profileService.js:31-35 | those three facts fix the saved profile completely |
| ProfileService.ApplyWholeProfile | src/services/api/profileService.js:31-35 | a patch carrying a whole profile replaces everything but `updatedAt` |
| ProfileService.DefaultProfile | src/services/api/profileService.js:40-65 | blank personal info, five empty lists, the given `userId`, `createdAt` = `updatedAt` = now |
| ProfileService.NewProfile | src/services/api/profileService.js:21-26 | a new profile has the patch's fields, which win over the generated `Id` and `userId` |
| ProfileService.GetProfile | src/services/api/profileService.js:4-13 | it returns a stored profile of that user when one exists, and otherwise the default profile for that user |
| ProfileService.GetProfileFound | src/services/api/profileService.js:7-12 | it returns exactly the first stored profile of that user |
| ProfileService.ProfileStore.UpdateProfile | src/services/api/profileService.js:15-38 | the store becomes the upsert and the result is the saved profile, which is in the store |
| ProfileService.UpdateExisting | src/services/api/profileService.js:18-35 | for an existing user, the length stays and only that index changes, to the patched profile |
| ProfileService.UpdateNew | src/services/api/profileService.js:20-28 | for a new user, exactly one profile is appended, with `Id` = max + 1 unless the patch gives one |
| ProfileService.UpdateOthersUnchanged | src/services/api/profileService.js:18-35 | other users' profiles stay as they were |
| ProfileService.GetAfterUpdate | src/services/api/profileService.js:7-35 | after an update that keeps `userId`, reading the profile back gives one that includes the patch |
| AuthService.TokenFor | src/services/api/authService.js:16 | a token starts with "mock-jwt-token-" |
| AuthService.TokenRoundTrip | src/services/api/authService.js:16-56 | decoding the token of a non-negative `Id` gives that `Id` |
| AuthService.FindCredentials | src/services/api/authService.js:8-10 | `find` returns the first user matching both email and password, or none when no user matches |
| AuthService.Login | src/services/api/authService.js:4-23 | it succeeds iff some user matches both email and password; a failure says "Invalid email or password" |
| AuthService.ValidateToken | src/services/api/authService.js:52-65 | it succeeds iff the decoded `Id` belongs to a user; a failure says "Invalid token" |
| AuthService.ValidateFound | src/services/api/authService.js:16-64 | a token for a stored user with a non-negative `Id` validates to that user without the password |
| AuthService.ValidateAfterLogin | src/services/api/authService.js:16-64 | with unique non-negative ids, the token a login returns validates to the logged-in user |
| AuthService.NewUser | src/services/api/authService.js:34-42 | the new user's `Id` is the largest stored `Id` plus one: above every stored `Id` and one past one of them; it keeps the given email, password, first and last name, and takes `now` as `createdAt` |
| AuthService.UserStore.Register | src/services/api/authService.js:25-50 | a taken email fails with "User already exists with this email" and leaves the store unchanged; otherwise exactly one user is appended |
| AuthService.RegisterKeepsEmailsUnique | src/services/api/authService.js:29-42 | registration keeps emails unique |
| AuthService.RegisterKeepsIdsUnique | src/services/api/authService.js:35 | registration keeps ids unique |
| AuthService.LoginAfterRegister | src/services/api/authService.js:8-42 | after a registration, logging in with the same email and password succeeds as the new user |
| AuthService.ValidateAfterRegister | src/services/api/authService.js:44-64 | the token a registration returns validates to the new user |
| ResumeService.MatchProfileToJob | src/services/api/resumeService.js:61-72 | the first min(12, n) skills and min(3, m) projects as prefixes; the other four sections pass through |
| ResumeService.MatchKeepsSmallProfile | src/services/api/resumeService.js:68-69 | a profile within both limits passes through whole |
| ResumeService.DefaultCustomization | src/services/api/resumeService.js:74-79 | the template's first colour scheme and first font, present exactly when the template has one |
| ResumeService.FindTemplate | src/services/api/resumeService.js:8 | it finds the first template with that `Id`, or none when no template has it |
| ResumeService.FindResume | src/services/api/resumeService.js:52 | it returns the first index with that `Id`, or none when no résumé has it |
| ResumeService.NewResume | src/services/api/resumeService.js:13-29 | `Id` = max + 1; the given user, analysis and template; matched content; the given or default customization; zeroed analytics |
| ResumeService.NewResumeAnalytics | src/services/api/resumeService.js:23-28 | the new résumé has 0 downloads, 0 views and empty histories |
| ResumeService.GetResumes | src/services/api/resumeService.js:35-41 | exactly the user's résumés, in a newest-first permutation |
| ResumeService.Bump | src/services/api/resumeService.js:172-195 | a download adds 1 to `downloads` and one record to its history, and leaves the views alone; a view does the reverse |
| ResumeService.TrackEffect | src/services/api/resumeService.js:163-199 | tracking changes only the first résumé with that `Id`, and only its analytics |
| ResumeService.TrackMissing | src/services/api/resumeService.js:166-186 | tracking an unknown `Id` changes nothing |
| ResumeService.ResumeStore.TrackDownload | src/services/api/resumeService.js:163-180 | the store becomes the tracked store for a download |
| ResumeService.ResumeStore.TrackView | src/services/api/resumeService.js:182-199 | the store becomes the tracked store for a view |
| ResumeService.CountInSnoc | src/services/api/resumeService.js:261-263 | one more record adds one to the count of its own month only |
| ResumeService.CountedStep | src/services/api/resumeService.js:254-276 | counting one record keeps the buckets equal to the per-month counts |
| ResumeService.CountHistory | src/services/api/resumeService.js:254-276 | the inner `forEach` adds one history's records to the buckets |
| ResumeService.MonthlyTrends | src/services/api/resumeService.js:237-281 | six buckets, oldest month first, each holding that month's download and view counts |
| ResumeService.SumsAreWindows | src/services/api/resumeService.js:237-281 | the first n buckets sum to the records in those n months |
| ResumeService.TrendTotalsBounded | src/services/api/resumeService.js:252-278 | the bucket totals never exceed the number of history records |
| ResumeService.Filled | src/services/api/resumeService.js:129-133 | only the user's résumés without analytics receive the fill; every other résumé is kept |
| ResumeService.FilledEffect | src/services/api/resumeService.js:129-133 | an existing analytics record is never overwritten, and filling changes nothing but analytics |
| ResumeService.Average | src/services/api/resumeService.js:157-158 | 0 for no résumés, otherwise the rounded quotient |
| ResumeService.FilterFilled | src/services/api/resumeService.js:126-133 | the user's résumés after filling are, position by position, the user's résumés before it with a missing analytics record filled in |
| ResumeService.ResumeStore.GetAnalytics | src/services/api/resumeService.js:123-161 | the store is filled, and the report holds the sums, count, rounded averages, performance and trends of the user's résumés |
| ResumeService.EmptyReport | src/services/api/resumeService.js:135-158 | with no résumés, every total, average and bucket is 0 |
| ResumeService.ReportTrendsBounded | src/services/api/resumeService.js:252-278 | the report's bucket totals never exceed the user's history records |
| ResumeService.ResumeStore.GenerateResume | src/services/api/resumeService.js:5-33 | an unknown template fails with "Template not found" and leaves the store unchanged; otherwise exactly the new résumé is appended |
| ResumeService.ResumeStore.DeleteResume | src/services/api/resumeService.js:49-59 | a missing `Id` fails with "Resume not found" and changes nothing; otherwise the first entry with that `Id` is spliced out |
| ResumeService.DeleteEffect | src/services/api/resumeService.js:57 | the splice removes one entry and keeps the others in order |
| ProfilePage.SetPersonal | src/components/pages/ProfilePage.jsx:149-152 | the named field takes the value and the other ten fields are kept |
| ProfilePage.PersonalExtensional | src/components/pages/ProfilePage.jsx:149-152 | personal info is determined by its eleven fields |
| ProfilePage.UpdatePersonalInfo | src/components/pages/ProfilePage.jsx:146-154 | sets `personalInfo[field]` and changes nothing else in the profile |
| ProfilePage.UpdatePersonalInfoSame | src/components/pages/ProfilePage.jsx:146-154 | writing a field's current value leaves the profile unchanged |
| ProfilePage.AddSkill | src/components/pages/ProfilePage.jsx:575-583 | appends the trimmed skill iff it is non-empty and new, otherwise leaves the profile unchanged; the input box is cleared only on an append |
| ProfilePage.AddSkillDistinct | src/components/pages/ProfilePage.jsx:576 | adding a skill keeps the skills duplicate-free |
| ProfilePage.AddSkillTrimmed | src/components/pages/ProfilePage.jsx:576-577 | the skill appended has no surrounding white space |
| ProfilePage.AddSkillTwice | src/components/pages/ProfilePage.jsx:576 | adding the same skill again changes nothing |
| ProfilePage.RemoveSkill | src/components/pages/ProfilePage.jsx:585-590 | every occurrence of the skill goes, every other skill stays |
| ProfilePage.RemoveSkillOrder | src/components/pages/ProfilePage.jsx:585-590 | the remaining skills keep their order and multiplicity |
| ProfilePage.AddThenRemoveSkill | src/components/pages/ProfilePage.jsx:575-590 | removing a newly added skill restores the profile |
| ProfilePage.AddExperience | src/components/pages/ProfilePage.jsx:245-260 | appends one entry with the given id and empty fields; nothing else changes |
| ProfilePage.RemoveExperience | src/components/pages/ProfilePage.jsx:262-267 | keeps exactly the entries with another id |
| ProfilePage.UpdateExperience | src/components/pages/ProfilePage.jsx:269-276 | same length and ids; only the matching entries change, in the named field |
| ProfilePage.SetExperience | src/components/pages/ProfilePage.jsx:273 | the named field takes the value; the id and other fields are kept |
| ProfilePage.AddExperienceUnique | src/components/pages/ProfilePage.jsx:245-260 | a fresh id keeps the experience ids unique |
| ProfilePage.RemoveExperienceOrder | src/components/pages/ProfilePage.jsx:262-267 | the rest keep their order, and unique ids stay unique |
| ProfilePage.AddEducation | src/components/pages/ProfilePage.jsx:404-420 | appends one entry with the given id and empty fields; nothing else changes |
| ProfilePage.RemoveEducation | src/components/pages/ProfilePage.jsx:422-427 | keeps exactly the entries with another id |
| ProfilePage.UpdateEducation | src/components/pages/ProfilePage.jsx:429-436 | same length and ids; only the matching entries change, in the named field |
| ProfilePage.SetEducation | src/components/pages/ProfilePage.jsx:433 | the named field takes the value; the id and other fields are kept |
| ProfilePage.AddEducationUnique | src/components/pages/ProfilePage.jsx:404-420 | a fresh id keeps the education ids unique |
| ProfilePage.RemoveEducationOrder | src/components/pages/ProfilePage.jsx:422-427 | the rest keep their order, and unique ids stay unique |
| ProfilePage.AddProject | src/components/pages/ProfilePage.jsx:655-670 | appends one entry with the given id, empty fields and no technologies; nothing else changes |
| ProfilePage.RemoveProject | src/components/pages/ProfilePage.jsx:672-677 | keeps exactly the entries with another id |
| ProfilePage.UpdateProject | src/components/pages/ProfilePage.jsx:679-686 | same length and ids; only the matching entries change, in the named field |
| ProfilePage.SetProject | src/components/pages/ProfilePage.jsx:683 | the named field takes the value; the id, technologies and other fields are kept |
| ProfilePage.AddProjectUnique | src/components/pages/ProfilePage.jsx:655-670 | a fresh id keeps the project ids unique |
| ProfilePage.RemoveProjectOrder | src/components/pages/ProfilePage.jsx:672-677 | the rest keep their order, and unique ids stay unique |
| ProfilePage.AddCertification | src/components/pages/ProfilePage.jsx:803-817 | appends one entry with the given id and empty fields; nothing else changes |
| ProfilePage.RemoveCertification | src/components/pages/ProfilePage.jsx:819-824 | keeps exactly the entries with another id |
| ProfilePage.UpdateCertification | src/components/pages/ProfilePage.jsx:826-833 | same length and ids; only the matching entries change, in the named field |
| ProfilePage.SetCertification | src/components/pages/ProfilePage.jsx:830 | the named field takes the value; the id and other fields are kept |
| ProfilePage.AddCertificationUnique | src/components/pages/ProfilePage.jsx:803-817 | a fresh id keeps the certification ids unique |
| ProfilePage.RemoveCertificationOrder | src/components/pages/ProfilePage.jsx:819-824 | the rest keep their order, and unique ids stay unique |
| ProfilePage.UpdateExperienceKeepsIds | src/components/pages/ProfilePage.jsx:269-276 | editing a field keeps every experience entry's id, so unique ids stay unique |
| ProfilePage.UpdateEducationKeepsIds | src/components/pages/ProfilePage.jsx:429-436 | editing a field keeps every education entry's id, so unique ids stay unique |
| ProfilePage.UpdateProjectKeepsIds | src/components/pages/ProfilePage.jsx:679-686 | editing a field keeps every project's id, so unique ids stay unique |
| ProfilePage.UpdateCertificationKeepsIds | src/components/pages/ProfilePage.jsx:826-833 | editing a field keeps every certification's id, so unique ids stay unique |
| DashboardPage.CountTrue | src/components/pages/DashboardPage.jsx:58 | the count is at most the length; it equals the length iff all hold, and is 0 iff none hold |
| DashboardPage.Completion | src/components/pages/DashboardPage.jsx:46-60 | 0 without a profile, otherwise `round(100·k/6)` for k satisfied sections; always in [0, 100] |
| DashboardPage.CompletionValues | src/components/pages/DashboardPage.jsx:58-59 | k = 0..6 gives 0, 17, 33, 50, 67, 83, 100 |
| DashboardPage.CompletionFull | src/components/pages/DashboardPage.jsx:49-59 | 100 iff all six sections are filled in |
| DashboardPage.CompletionEmpty | src/components/pages/DashboardPage.jsx:49-59 | 0 iff no section is filled in |
| DashboardPage.CompletionIgnores | src/components/pages/DashboardPage.jsx:49-56 | projects and certifications do not affect the score |
| DashboardPage.CompletionMonotone | src/components/pages/DashboardPage.jsx:58-59 | filling in more sections never lowers the score |
| DashboardPage.DemoProfileComplete | src/services/mockData/profiles.js:2-106 | the demonstration profile scores 100 |
| DashboardPage.RecentResumes | src/components/pages/DashboardPage.jsx:66 | the first min(3, n) résumés, in order |
| HistoryPage.FilterResumes | src/components/pages/HistoryPage.jsx:47-49 | exactly the résumés whose lower-cased title contains the lower-cased term |
| HistoryPage.EmptySearchKeepsAll | src/components/pages/HistoryPage.jsx:47-49 | an empty term keeps every résumé, in order |
| HistoryPage.SearchIgnoresCase | src/components/pages/HistoryPage.jsx:48 | searching for a term and for its lower-cased form gives the same list |
| HistoryPage.LexTotal | src/components/pages/HistoryPage.jsx:59 | the title order relates every pair of strings |
| HistoryPage.LexTransitive | src/components/pages/HistoryPage.jsx:59 | the title order is transitive |
| HistoryPage.TitleOrderIsTotalPreorder | src/components/pages/HistoryPage.jsx:59 | the title comparator is total and transitive |
| HistoryPage.ParseSortBy | src/components/pages/HistoryPage.jsx:51-63 | 'newest', 'oldest' and 'title' select their cases; any other value selects none |
| HistoryPage.SortInPlace | src/components/pages/HistoryPage.jsx:53-59 | `filtered.sort(cmp)` leaves the array sorted by the comparator and a permutation of what it held |
| HistoryPage.FilterAndSort | src/components/pages/HistoryPage.jsx:46-66 | a permutation of the filtered list; non-increasing `createdAt` for 'newest', non-decreasing for 'oldest', title order for 'title', and the filter order otherwise |
| HistoryPage.AfterDelete | src/components/pages/HistoryPage.jsx:75 | the local list keeps exactly the résumés with another `Id` |
| HistoryPage.AfterDeleteOrder | src/components/pages/HistoryPage.jsx:75 | the rest keep their order and multiplicity |
| HistoryPage.StatsOrdered | src/components/pages/HistoryPage.jsx:257-277 | this week's count <= this month's count <= the total |
| HistoryPage.TemplateIds | src/components/pages/HistoryPage.jsx:285 | the set of template ids used, which has at most as many members as there are résumés |
| GeneratePage.GenerateFlow.constructor | src/components/pages/GenerateResumePage.jsx:17-22 | step 1, an empty description, no analysis, no template, no profile, no templates |
| GeneratePage.GenerateFlow.Load | src/components/pages/GenerateResumePage.jsx:30-45 | the profile and templates are stored; the wizard state is kept |
| GeneratePage.GenerateFlow.SetJobDescription | src/components/pages/GenerateResumePage.jsx:18 | only the description changes |
| GeneratePage.GenerateFlow.AnalyzeJob | src/components/pages/GenerateResumePage.jsx:47-64 | a blank description makes no call and changes nothing; success stores the analysis and moves to step 2; failure keeps the step and analysis |
| GeneratePage.GenerateFlow.SelectTemplate | src/components/pages/GenerateResumePage.jsx:310 | only the chosen template changes |
| GeneratePage.GenerateFlow.GenerateResume | src/components/pages/GenerateResumePage.jsx:66-91 | no template or no analysis means no call and no step change; success moves to step 3; failure keeps the step |
| GeneratePage.GenerateFlow.Back | src/components/pages/GenerateResumePage.jsx:338 | step 1, with the description and analysis kept |
| GeneratePage.GenerateFlow.Reset | src/components/pages/GenerateResumePage.jsx:93-98 | step 1 with description, analysis and template cleared; the profile and templates are kept |

Every `GenerateFlow` method also keeps `Valid()`: the step is 1, 2 or 3, steps 2 and 3 have an analysis, and step 3 has a chosen template.

## Left out

- Delays, `async`/`await` and `Promise.all`: every service call is a synchronous function or method that returns a value or a `Result` error.
- JSX rendering, animation, toasts, `window.confirm` and `window.location`. These are presentation.
- Wall-clock time and locale dates (`Date.now()`, `toISOString`, `toLocaleDateString`, `toDateString`, date-fns `format`). Timestamps, ids from `Date.now()` and the current month are integer parameters. The résumé title takes a date label as a parameter.
- The month-label round trip in `calculateMonthlyTrends` (resumeService.js:245, 257). A month is an integer ordinal, and a record matches the bucket with the same ordinal.
- `generateMockAnalytics` uses `Math.random`. It is the `fill` parameter of `GetAnalytics`, an arbitrary function.
- The `toFixed(1)` conversion rate and `lastUpdated`. Both are floating point or clock output and are not part of `Performance` or `Report`.
- `saveCustomization` and `getCustomization` are `localStorage` plumbing. So is the token storage in `useAuth`.
- `applyCustomization` only builds a preview URL from the clock. `getTemplates` only copies the template list, which is a parameter here.
- `localeCompare` in the title sort is replaced by code-unit lexicographic order (`HistoryPage.LexLe`). The model relies only on the order being total and transitive.
- Case folding and white space are ASCII only. `Text.Lower` lowers A–Z. `Text.IsSpace` covers space, tab, line feed, vertical tab, form feed and carriage return, not the rest of JavaScript's `\s`.
- The loading and error flags of the pages, and the generate page's `user` from the authentication context.
- JobAnalysis.PostingShape: proves the worked example's memberships, years phrase and a strength above `low`. It does not prove the exact lists or the value `medium`, which need all 64 vocabulary terms checked against the literal text.
- ProfileService.NewProfile: a field absent from the patch is blank in a new profile, where JavaScript leaves it `undefined`. The two can differ: `matchProfileToJob` slices `skills` and `projects` (resumeService.js:68-69) and the profile page maps `experience` (ProfilePage.jsx:310), and both throw on `undefined`. The only caller (ProfilePage.jsx:43) saves a profile it read through `getProfile`, which carries every field, so no such patch reaches `updateProfile` from the pages.
- JavaScript numbers are doubles. The model uses unbounded integers for the ids from `Math.max(...) + 1`, for the `parseInt` of a token and for the quotient that `Math.round` rounds. The two agree on every integer below 2^53.
- JobAnalysis.GetAnalyses: sorted newest first and a permutation, but stability for equal timestamps is not stated. The same holds for ResumeService.GetResumes and HistoryPage.SortInPlace.
- AuthService.TokenRoundTrip: holds for non-negative ids only. `split('-')` cuts a negative id's minus sign, so `AuthService.NegativeIdMisread` shows the token for -5 decoding to 5. Every id the stores hand out is max + 1 over positive ids.
- `Math.max(...[])` is `-Infinity` on an empty store. So operations that give out `Id` = max + 1 require a non-empty store: `AnalyzeJobDescription`, `GenerateResume` (when the template exists), `Register`, `UpdateProfile` and `GetProfile`.
- The mock JSON stores (users, résumés, templates, job analyses) are not part of this model. The stores start from arbitrary sequences. The demonstration profile from `profiles.js` is included as a fixture.
