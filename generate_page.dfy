/** The three-step wizard of the generate-résumé page: describe the job
    (step 1), pick a template (step 2), done (step 3). The outcomes of the
    service calls are passed in to the handlers. */
module GeneratePage {

  import opened Wrappers
  import opened Text
  import JobAnalysis
  import ResumeService
  import Profiles

  class GenerateFlow {
    var step: int
    var jobDescription: string
    var analysis: Option<JobAnalysis.Analysis>
    var selectedTemplate: Option<ResumeService.Template>
    var profile: Option<Profiles.Profile>
    var templates: seq<ResumeService.Template>

    /** The step is 1, 2 or 3; past step 1 there is an analysis, and at
        step 3 a template was chosen. */
    predicate Valid()
      reads this
    {
      && 1 <= step <= 3
      && (step >= 2 ==> analysis.Some?)
      && (step == 3 ==> selectedTemplate.Some?)
    }

    constructor ()
      ensures Valid()
      ensures step == 1 && jobDescription == "" && analysis.None? && selectedTemplate.None?
      ensures profile.None? && templates == []
    {
      step := 1;
      jobDescription := "";
      analysis := None;
      selectedTemplate := None;
      profile := None;
      templates := [];
    }

    /** `loadInitialData()` once both calls have answered. */
    method Load(p: Profiles.Profile, ts: seq<ResumeService.Template>)
      requires Valid()
      modifies this
      ensures Valid()
      ensures profile == Some(p) && templates == ts
      ensures step == old(step) && jobDescription == old(jobDescription)
      ensures analysis == old(analysis) && selectedTemplate == old(selectedTemplate)
    {
      profile := Some(p);
      templates := ts;
    }

    /** Typing into the description box. */
    method SetJobDescription(s: string)
      requires Valid()
      modifies this
      ensures Valid()
      ensures jobDescription == s
      ensures step == old(step) && analysis == old(analysis) && selectedTemplate == old(selectedTemplate)
      ensures profile == old(profile) && templates == old(templates)
    {
      jobDescription := s;
    }

    /** `handleAnalyzeJob()`. Returns the description sent to the analyser,
        or `None` when a blank description made it stop before calling;
        `outcome` is what the call answered. */
    method AnalyzeJob(outcome: Result<JobAnalysis.Analysis>) returns (sent: Option<string>)
      requires Valid()
      modifies this
      ensures Valid()
      ensures sent.None? <==> IsBlank(old(jobDescription))
      ensures sent.Some? ==> sent.value == old(jobDescription)
      ensures sent.Some? && outcome.Ok? ==> analysis == Some(outcome.value) && step == 2
      ensures sent.None? || outcome.Err? ==> analysis == old(analysis) && step == old(step)
      ensures jobDescription == old(jobDescription) && selectedTemplate == old(selectedTemplate)
      ensures profile == old(profile) && templates == old(templates)
    {
      if Trim(jobDescription) == [] {
        return None;
      }
      sent := Some(jobDescription);
      if outcome.Ok? {
        analysis := Some(outcome.value);
        step := 2;
      }
    }

    /** Clicking a template card. */
    method SelectTemplate(t: ResumeService.Template)
      requires Valid()
      modifies this
      ensures Valid()
      ensures selectedTemplate == Some(t)
      ensures step == old(step) && jobDescription == old(jobDescription) && analysis == old(analysis)
      ensures profile == old(profile) && templates == old(templates)
    {
      selectedTemplate := Some(t);
    }

    /** `handleGenerateResume()`. Returns the analysis and template `Id`s
        sent to the generator, or `None` when it stopped before calling:
        no template chosen, or no analysis (reading its `Id` throws, and
        the handler catches that like a failed call). */
    method GenerateResume(outcome: Result<ResumeService.Resume>) returns (sent: Option<(int, int)>)
      requires Valid()
      modifies this
      ensures Valid()
      ensures sent.Some? <==> old(selectedTemplate).Some? && old(analysis).Some?
      ensures sent.Some? ==> sent.value == (old(analysis).value.Id, old(selectedTemplate).value.Id)
      ensures sent.Some? && outcome.Ok? ==> step == 3
      ensures sent.None? || outcome.Err? ==> step == old(step)
      ensures jobDescription == old(jobDescription) && analysis == old(analysis)
      ensures selectedTemplate == old(selectedTemplate)
      ensures profile == old(profile) && templates == old(templates)
    {
      if selectedTemplate.None? || analysis.None? {
        return None;
      }
      sent := Some((analysis.value.Id, selectedTemplate.value.Id));
      if outcome.Ok? {
        step := 3;
      }
    }

    /** The Back button of step 2. */
    method Back()
      requires Valid()
      modifies this
      ensures Valid()
      ensures step == 1
      ensures jobDescription == old(jobDescription) && analysis == old(analysis)
      ensures selectedTemplate == old(selectedTemplate)
      ensures profile == old(profile) && templates == old(templates)
    {
      step := 1;
    }

    /** `resetFlow()`: back to an empty step 1, keeping the loaded profile
        and templates. */
    method Reset()
      requires Valid()
      modifies this
      ensures Valid()
      ensures step == 1 && jobDescription == "" && analysis.None? && selectedTemplate.None?
      ensures profile == old(profile) && templates == old(templates)
    {
      step := 1;
      jobDescription := "";
      analysis := None;
      selectedTemplate := None;
    }
  }
}
