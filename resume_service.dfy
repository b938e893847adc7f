/** The résumé service: the in-memory store of generated résumés with its
    generate, list, delete and download/view tracking operations, the
    profile-to-résumé matcher, and the analytics report with its six
    monthly buckets. Timestamps are milliseconds since the epoch; a month
    is the ordinal `year * 12 + monthIndex` of a local calendar month. */
module ResumeService {

  import opened Wrappers
  import opened Text
  import opened Collections
  import opened JsMath
  import Profiles

  // ---------------------------------------------------------------------
  // Data
  // ---------------------------------------------------------------------

  /** A template as the generator uses it: its colour schemes and fonts. */
  datatype Template = Template(Id: int, colorSchemes: seq<string>, fontOptions: seq<string>)

  /** `colorScheme`/`font` are absent when the template lists none. */
  datatype Customization = Customization(colorScheme: Option<string>, font: Option<string>)

  /** One download or view: when it happened and in which month. */
  datatype HistoryRecord = HistoryRecord(timestamp: int, month: int)

  datatype Analytics = Analytics(
    downloads: nat,
    views: nat,
    downloadHistory: seq<HistoryRecord>,
    viewHistory: seq<HistoryRecord>)

  /** The part of a profile a résumé carries. */
  datatype Content = Content(
    personalInfo: Profiles.PersonalInfo,
    education: seq<Profiles.Education>,
    experience: seq<Profiles.Experience>,
    skills: seq<string>,
    projects: seq<Profiles.Project>,
    certifications: seq<Profiles.Certification>)

  /** A stored résumé; records loaded from the mock data may lack analytics. */
  datatype Resume = Resume(
    Id: int,
    userId: int,
    jobAnalysisId: int,
    templateId: int,
    title: string,
    content: Content,
    customization: Customization,
    pdfUrl: string,
    createdAt: int,
    analytics: Option<Analytics>)

  const NoAnalytics := Analytics(0, 0, [], [])

  // ---------------------------------------------------------------------
  // Matching and customization
  // ---------------------------------------------------------------------

  const MaxSkills := 12
  const MaxProjects := 3

  /** `matchProfileToJob(profile)`: the first twelve skills and the first
      three projects; the other sections pass through. */
  function MatchProfileToJob(p: Profiles.Profile): (c: Content)
    ensures c.skills <= p.skills && |c.skills| == Min(MaxSkills, |p.skills|)
    ensures c.projects <= p.projects && |c.projects| == Min(MaxProjects, |p.projects|)
    ensures c.personalInfo == p.personalInfo && c.education == p.education
    ensures c.experience == p.experience && c.certifications == p.certifications
  {
    Content(p.personalInfo, p.education, p.experience,
            p.skills[..Min(MaxSkills, |p.skills|)], p.projects[..Min(MaxProjects, |p.projects|)],
            p.certifications)
  }

  /** A profile within the limits is carried over whole. */
  lemma MatchKeepsSmallProfile(p: Profiles.Profile)
    requires |p.skills| <= MaxSkills && |p.projects| <= MaxProjects
    ensures MatchProfileToJob(p).skills == p.skills
    ensures MatchProfileToJob(p).projects == p.projects
  {
  }

  /** `getDefaultCustomization(template)`: its first colour scheme and
      first font. */
  function DefaultCustomization(t: Template): (c: Customization)
    ensures c.colorScheme.Some? <==> t.colorSchemes != []
    ensures c.font.Some? <==> t.fontOptions != []
    ensures c.colorScheme.Some? ==> c.colorScheme.value == t.colorSchemes[0]
    ensures c.font.Some? ==> c.font.value == t.fontOptions[0]
  {
    Customization(if t.colorSchemes == [] then None else Some(t.colorSchemes[0]),
                  if t.fontOptions == [] then None else Some(t.fontOptions[0]))
  }

  // ---------------------------------------------------------------------
  // Lookups
  // ---------------------------------------------------------------------

  /** `templates.find(t => t.Id === id)`, as an index. */
  function FindTemplate(templates: seq<Template>, id: int): (r: Option<nat>)
    ensures r.Some? ==> r.value < |templates| && templates[r.value].Id == id
    ensures r.Some? ==> forall j :: 0 <= j < r.value ==> templates[j].Id != id
    ensures r.None? <==> forall j :: 0 <= j < |templates| ==> templates[j].Id != id
  {
    if templates == [] then None
    else if templates[0].Id == id then Some(0)
    else
      var r := FindTemplate(templates[1..], id);
      if r.Some? then Some(r.value + 1) else None
  }

  /** `resumes.findIndex(r => r.Id === id)`, or `None` for `-1`. */
  function FindResume(resumes: seq<Resume>, id: int): (r: Option<nat>)
    ensures r.Some? ==> r.value < |resumes| && resumes[r.value].Id == id
    ensures r.Some? ==> forall j :: 0 <= j < r.value ==> resumes[j].Id != id
    ensures r.None? <==> forall j :: 0 <= j < |resumes| ==> resumes[j].Id != id
  {
    if resumes == [] then None
    else if resumes[0].Id == id then Some(0)
    else
      var r := FindResume(resumes[1..], id);
      if r.Some? then Some(r.value + 1) else None
  }

  // ---------------------------------------------------------------------
  // Generating
  // ---------------------------------------------------------------------

  /** The résumé `generateResume` builds for template `t`. The local date
      in its title and the clock are passed in. */
  function NewResume(resumes: seq<Resume>, userId: int, jobAnalysisId: int, t: Template,
                     profile: Profiles.Profile, customization: Option<Customization>,
                     dateLabel: string, now: int): (r: Resume)
    requires resumes != []
    ensures forall i :: 0 <= i < |resumes| ==> resumes[i].Id < r.Id
    ensures r.Id == MaxKey(resumes, (x: Resume) => x.Id) + 1
    ensures r.userId == userId && r.jobAnalysisId == jobAnalysisId && r.templateId == t.Id
    ensures r.content == MatchProfileToJob(profile)
    ensures customization.None? ==> r.customization == DefaultCustomization(t)
    ensures customization.Some? ==> r.customization == customization.value
    ensures r.createdAt == now
    ensures r.analytics == Some(NoAnalytics)
  {
    Resume(MaxKey(resumes, (x: Resume) => x.Id) + 1, userId, jobAnalysisId, t.Id,
           "Resume - " + dateLabel, MatchProfileToJob(profile),
           if customization.Some? then customization.value else DefaultCustomization(t),
           "/api/resumes/" + IntToString(now) + "/download.pdf", now, Some(NoAnalytics))
  }

  /** The fresh résumé's counters are zero and its histories empty. */
  lemma NewResumeAnalytics(resumes: seq<Resume>, userId: int, jobAnalysisId: int, t: Template,
                           profile: Profiles.Profile, customization: Option<Customization>,
                           dateLabel: string, now: int)
    requires resumes != []
    ensures var a := NewResume(resumes, userId, jobAnalysisId, t, profile, customization, dateLabel, now).analytics;
      a.Some? && a.value.downloads == 0 && a.value.views == 0
      && a.value.downloadHistory == [] && a.value.viewHistory == []
  {
  }

  // ---------------------------------------------------------------------
  // Listing
  // ---------------------------------------------------------------------

  /** `getResumes(userId)`: that user's résumés, newest first. */
  function GetResumes(resumes: seq<Resume>, userId: int): (r: seq<Resume>)
    ensures SortedDesc(r, (x: Resume) => x.createdAt)
    ensures multiset(r) == multiset(Filter(resumes, (x: Resume) => x.userId == userId))
    ensures forall x :: x in r <==> x in resumes && x.userId == userId
  {
    var mine := Filter(resumes, (x: Resume) => x.userId == userId);
    var r := SortDesc(mine, (x: Resume) => x.createdAt);
    assert forall x :: x in r <==> x in multiset(mine);
    r
  }

  // ---------------------------------------------------------------------
  // Tracking
  // ---------------------------------------------------------------------

  datatype Event = Download | View

  /** A résumé's analytics, with the all-zero record standing in for
      missing ones. */
  function AnalyticsOf(r: Resume): Analytics {
    if r.analytics.Some? then r.analytics.value else NoAnalytics
  }

  /** One more download or view, recorded in the history. */
  function Bump(a: Analytics, e: Event, rec: HistoryRecord): (b: Analytics)
    ensures e == Download ==> b.downloads == a.downloads + 1 && b.downloadHistory == a.downloadHistory + [rec]
    ensures e == Download ==> b.views == a.views && b.viewHistory == a.viewHistory
    ensures e == View ==> b.views == a.views + 1 && b.viewHistory == a.viewHistory + [rec]
    ensures e == View ==> b.downloads == a.downloads && b.downloadHistory == a.downloadHistory
  {
    match e
    case Download => a.(downloads := a.downloads + 1, downloadHistory := a.downloadHistory + [rec])
    case View => a.(views := a.views + 1, viewHistory := a.viewHistory + [rec])
  }

  /** The store after `trackDownload(id)` or `trackView(id)`. */
  function Tracked(resumes: seq<Resume>, id: int, e: Event, rec: HistoryRecord): seq<Resume> {
    var i := FindResume(resumes, id);
    if i.None? then resumes
    else resumes[i.value := resumes[i.value].(analytics := Some(Bump(AnalyticsOf(resumes[i.value]), e, rec)))]
  }

  /** Tracking changes only the first résumé with that `Id`: one more on
      the tracked counter, one more history record, the other counter and
      every other résumé untouched. */
  lemma TrackEffect(resumes: seq<Resume>, id: int, e: Event, rec: HistoryRecord, i: nat)
    requires i < |resumes| && resumes[i].Id == id
    requires forall j :: 0 <= j < i ==> resumes[j].Id != id
    ensures var s := Tracked(resumes, id, e, rec);
      && |s| == |resumes|
      && (forall j :: 0 <= j < |s| && j != i ==> s[j] == resumes[j])
      && s[i].analytics == Some(Bump(AnalyticsOf(resumes[i]), e, rec))
      && s[i] == resumes[i].(analytics := s[i].analytics)
  {
    assert FindResume(resumes, id) == Some(i);
  }

  /** Tracking an unknown `Id` changes nothing (and still reports success). */
  lemma TrackMissing(resumes: seq<Resume>, id: int, e: Event, rec: HistoryRecord)
    requires forall j :: 0 <= j < |resumes| ==> resumes[j].Id != id
    ensures Tracked(resumes, id, e, rec) == resumes
  {
  }

  // ---------------------------------------------------------------------
  // Monthly trends
  // ---------------------------------------------------------------------

  /** One bucket of `calculateMonthlyTrends`. */
  datatype MonthTrend = MonthTrend(month: int, downloads: nat, views: nat)

  function History(r: Resume, e: Event): seq<HistoryRecord> {
    if r.analytics.None? then []
    else if e == Download then r.analytics.value.downloadHistory
    else r.analytics.value.viewHistory
  }

  /** Every history record of one kind, résumé by résumé. */
  function Records(resumes: seq<Resume>, e: Event): seq<HistoryRecord>
    decreases |resumes|
  {
    if resumes == [] then []
    else Records(resumes[..|resumes| - 1], e) + History(resumes[|resumes| - 1], e)
  }

  /** How many records fall in month `m`. */
  function CountIn(recs: seq<HistoryRecord>, m: int): (n: nat)
    ensures n <= |recs|
    decreases |recs|
  {
    if recs == [] then 0
    else CountIn(recs[..|recs| - 1], m) + (if recs[|recs| - 1].month == m then 1 else 0)
  }

  /** The six buckets hold the counts of the months `current - 5` to
      `current`, oldest first. */
  predicate TrendsOf(months: seq<MonthTrend>, current: int, dl: seq<HistoryRecord>, vw: seq<HistoryRecord>) {
    && |months| == 6
    && forall k :: 0 <= k < 6 ==>
         months[k] == MonthTrend(current - 5 + k, CountIn(dl, current - 5 + k), CountIn(vw, current - 5 + k))
  }

  /** `months.findIndex(m => same month as the record)`. */
  function FindMonth(months: seq<MonthTrend>, month: int): (r: Option<nat>)
    ensures r.Some? ==> r.value < |months| && months[r.value].month == month
    ensures r.None? ==> forall k :: 0 <= k < |months| ==> months[k].month != month
  {
    if months == [] then None
    else if months[0].month == month then Some(0)
    else
      var r := FindMonth(months[1..], month);
      if r.Some? then Some(r.value + 1) else None
  }

  lemma CountInSnoc(recs: seq<HistoryRecord>, rec: HistoryRecord, m: int)
    ensures CountIn(recs + [rec], m) == CountIn(recs, m) + (if rec.month == m then 1 else 0)
  {
    assert (recs + [rec])[..|recs|] == recs;
  }

  /** The buckets after one more record of kind `e` in `month`: the bucket
      of that month, if there is one, gains one. */
  function Counted(months: seq<MonthTrend>, month: int, e: Event): seq<MonthTrend> {
    var k := FindMonth(months, month);
    if k.None? then months
    else if e == Download then months[k.value := months[k.value].(downloads := months[k.value].downloads + 1)]
    else months[k.value := months[k.value].(views := months[k.value].views + 1)]
  }

  lemma CountedStep(months: seq<MonthTrend>, current: int, dl: seq<HistoryRecord>,
                    vw: seq<HistoryRecord>, rec: HistoryRecord, e: Event)
    requires TrendsOf(months, current, dl, vw)
    ensures e == Download ==> TrendsOf(Counted(months, rec.month, e), current, dl + [rec], vw)
    ensures e == View ==> TrendsOf(Counted(months, rec.month, e), current, dl, vw + [rec])
  {
    forall m | true
      ensures CountIn(dl + [rec], m) == CountIn(dl, m) + (if rec.month == m then 1 else 0)
      ensures CountIn(vw + [rec], m) == CountIn(vw, m) + (if rec.month == m then 1 else 0)
    {
      CountInSnoc(dl, rec, m);
      CountInSnoc(vw, rec, m);
    }
  }

  /** The inner `forEach` over one history of one résumé. */
  method CountHistory(months0: seq<MonthTrend>, current: int, dl: seq<HistoryRecord>,
                      vw: seq<HistoryRecord>, h: seq<HistoryRecord>, e: Event)
    returns (months: seq<MonthTrend>)
    requires TrendsOf(months0, current, dl, vw)
    ensures e == Download ==> TrendsOf(months, current, dl + h, vw)
    ensures e == View ==> TrendsOf(months, current, dl, vw + h)
  {
    months := months0;
    var j := 0;
    assert h[..0] == [];
    assert dl + h[..0] == dl && vw + h[..0] == vw;
    while j < |h|
      invariant 0 <= j <= |h|
      invariant e == Download ==> TrendsOf(months, current, dl + h[..j], vw)
      invariant e == View ==> TrendsOf(months, current, dl, vw + h[..j])
    {
      var k := FindMonth(months, h[j].month);
      ghost var before := months;
      if k.Some? {
        if e == Download {
          months := months[k.value := months[k.value].(downloads := months[k.value].downloads + 1)];
        } else {
          months := months[k.value := months[k.value].(views := months[k.value].views + 1)];
        }
      }
      assert months == Counted(before, h[j].month, e);
      if e == Download {
        CountedStep(before, current, dl + h[..j], vw, h[j], e);
        assert dl + h[..j + 1] == (dl + h[..j]) + [h[j]];
      } else {
        CountedStep(before, current, dl, vw + h[..j], h[j], e);
        assert vw + h[..j + 1] == (vw + h[..j]) + [h[j]];
      }
      j := j + 1;
    }
    assert h[..j] == h;
  }

  /** `calculateMonthlyTrends(resumes)` for the current month `current`:
      six zeroed buckets, then one increment per history record that falls
      in one of them. */
  method MonthlyTrends(resumes: seq<Resume>, current: int) returns (months: seq<MonthTrend>)
    ensures TrendsOf(months, current, Records(resumes, Download), Records(resumes, View))
  {
    months := [];
    var back := 5;
    while back >= 0
      invariant -1 <= back <= 5 && |months| == 5 - back
      invariant forall k :: 0 <= k < |months| ==> months[k] == MonthTrend(current - 5 + k, 0, 0)
    {
      months := months + [MonthTrend(current - back, 0, 0)];
      back := back - 1;
    }
    assert TrendsOf(months, current, Records(resumes[..0], Download), Records(resumes[..0], View));
    var i := 0;
    while i < |resumes|
      invariant 0 <= i <= |resumes|
      invariant TrendsOf(months, current, Records(resumes[..i], Download), Records(resumes[..i], View))
    {
      var dl0, vw0 := Records(resumes[..i], Download), Records(resumes[..i], View);
      assert resumes[..i + 1][..i] == resumes[..i];
      if resumes[i].analytics.Some? {
        var dh := resumes[i].analytics.value.downloadHistory;
        var vh := resumes[i].analytics.value.viewHistory;
        months := CountHistory(months, current, dl0, vw0, dh, Download);
        months := CountHistory(months, current, dl0 + dh, vw0, vh, View);
      } else {
        assert dl0 + [] == dl0 && vw0 + [] == vw0;
      }
      i := i + 1;
    }
    assert resumes[..i] == resumes;
  }

  /** The records of `recs` in the `n` months from `lo`, month by month. */
  function WindowCount(recs: seq<HistoryRecord>, lo: int, n: nat): nat
    decreases n
  {
    if n == 0 then 0 else WindowCount(recs, lo, n - 1) + CountIn(recs, lo + n - 1)
  }

  lemma {:induction false} WindowCountSnoc(recs: seq<HistoryRecord>, rec: HistoryRecord, lo: int, n: nat)
    ensures WindowCount(recs + [rec], lo, n)
            == WindowCount(recs, lo, n) + (if lo <= rec.month < lo + n then 1 else 0)
    decreases n
  {
    if n > 0 {
      WindowCountSnoc(recs, rec, lo, n - 1);
      CountInSnoc(recs, rec, lo + n - 1);
    }
  }

  /** Each record lands in at most one month, so a window of months never
      counts more records than there are. */
  lemma {:induction false} WindowCountBound(recs: seq<HistoryRecord>, lo: int, n: nat)
    ensures WindowCount(recs, lo, n) <= |recs|
    decreases |recs|
  {
    if recs != [] {
      var init, last := recs[..|recs| - 1], recs[|recs| - 1];
      WindowCountBound(init, lo, n);
      assert recs == init + [last];
      WindowCountSnoc(init, last, lo, n);
      assert WindowCount(recs, lo, n) <= WindowCount(init, lo, n) + 1;
    } else {
      WindowCountEmpty(recs, lo, n);
    }
  }

  lemma {:induction false} WindowCountEmpty(recs: seq<HistoryRecord>, lo: int, n: nat)
    requires recs == []
    ensures WindowCount(recs, lo, n) == 0
    decreases n
  {
    if n > 0 {
      WindowCountEmpty(recs, lo, n - 1);
    }
  }

  function SumDownloads(months: seq<MonthTrend>): nat {
    if months == [] then 0 else SumDownloads(months[..|months| - 1]) + months[|months| - 1].downloads
  }

  function SumViews(months: seq<MonthTrend>): nat {
    if months == [] then 0 else SumViews(months[..|months| - 1]) + months[|months| - 1].views
  }

  lemma {:induction false} SumsAreWindows(months: seq<MonthTrend>, current: int,
                                          dl: seq<HistoryRecord>, vw: seq<HistoryRecord>, n: nat)
    requires TrendsOf(months, current, dl, vw) && n <= 6
    ensures SumDownloads(months[..n]) == WindowCount(dl, current - 5, n)
    ensures SumViews(months[..n]) == WindowCount(vw, current - 5, n)
    decreases n
  {
    if n > 0 {
      SumsAreWindows(months, current, dl, vw, n - 1);
      assert months[..n][..n - 1] == months[..n - 1];
    }
  }

  /** The buckets together never hold more downloads or views than there
      are history records. */
  lemma TrendTotalsBounded(months: seq<MonthTrend>, current: int,
                           dl: seq<HistoryRecord>, vw: seq<HistoryRecord>)
    requires TrendsOf(months, current, dl, vw)
    ensures SumDownloads(months) <= |dl| && SumViews(months) <= |vw|
  {
    SumsAreWindows(months, current, dl, vw, 6);
    assert months[..6] == months;
    WindowCountBound(dl, current - 5, 6);
    WindowCountBound(vw, current - 5, 6);
  }

  // ---------------------------------------------------------------------
  // The analytics report
  // ---------------------------------------------------------------------

  /** One entry of `resumePerformance`. */
  datatype Performance = Performance(id: int, title: string, downloads: nat, views: nat)

  datatype Report = Report(
    totalDownloads: nat,
    totalViews: nat,
    totalResumes: nat,
    monthlyTrends: seq<MonthTrend>,
    resumePerformance: seq<Performance>,
    averageDownloadsPerResume: nat,
    averageViewsPerResume: nat)

  function UserResumes(resumes: seq<Resume>, userId: int): seq<Resume> {
    Filter(resumes, (r: Resume) => r.userId == userId)
  }

  /** The store after the user's résumés without analytics got the record
      `fill` gives their `Id`. */
  function Filled(resumes: seq<Resume>, userId: int, fill: int -> Analytics): (s: seq<Resume>)
    ensures |s| == |resumes|
    ensures forall i :: 0 <= i < |s| ==>
              s[i] == if resumes[i].userId == userId && resumes[i].analytics.None?
                      then resumes[i].(analytics := Some(fill(resumes[i].Id))) else resumes[i]
  {
    UpdateWhere(resumes, (r: Resume) => r.userId == userId && r.analytics.None?,
                (r: Resume) => r.(analytics := Some(fill(r.Id))))
  }

  /** Filling never overwrites an existing record, never touches another
      user's résumés, and leaves every résumé of the user with analytics. */
  lemma FilledEffect(resumes: seq<Resume>, userId: int, fill: int -> Analytics, i: nat)
    requires i < |resumes|
    ensures resumes[i].analytics.Some? ==> Filled(resumes, userId, fill)[i] == resumes[i]
    ensures resumes[i].userId != userId ==> Filled(resumes, userId, fill)[i] == resumes[i]
    ensures resumes[i].userId == userId ==> Filled(resumes, userId, fill)[i].analytics.Some?
    ensures Filled(resumes, userId, fill)[i].(analytics := resumes[i].analytics) == resumes[i]
  {
  }

  function TotalDownloads(rs: seq<Resume>): nat {
    if rs == [] then 0 else TotalDownloads(rs[..|rs| - 1]) + AnalyticsOf(rs[|rs| - 1]).downloads
  }

  function TotalViews(rs: seq<Resume>): nat {
    if rs == [] then 0 else TotalViews(rs[..|rs| - 1]) + AnalyticsOf(rs[|rs| - 1]).views
  }

  function PerformanceOf(rs: seq<Resume>): (p: seq<Performance>)
    ensures |p| == |rs|
    ensures forall i :: 0 <= i < |rs| ==>
              p[i] == Performance(rs[i].Id, rs[i].title, AnalyticsOf(rs[i]).downloads, AnalyticsOf(rs[i]).views)
  {
    seq(|rs|, i requires 0 <= i < |rs| =>
      Performance(rs[i].Id, rs[i].title, AnalyticsOf(rs[i]).downloads, AnalyticsOf(rs[i]).views))
  }

  /** `total / count` rounded, or 0 for no résumés. */
  function Average(total: nat, count: nat): (a: nat)
    ensures count == 0 ==> a == 0
    ensures count > 0 ==> 2 * count * a <= 2 * total + count < 2 * count * (a + 1)
  {
    if count > 0 then RoundQuotient(total, count) else 0
  }

  /** `calculateMonthlyTrends` only reads, so its report part can be stated
      over its inputs. */
  predicate ReportOf(report: Report, mine: seq<Resume>, current: int) {
    && report.totalDownloads == TotalDownloads(mine)
    && report.totalViews == TotalViews(mine)
    && report.totalResumes == |mine|
    && TrendsOf(report.monthlyTrends, current, Records(mine, Download), Records(mine, View))
    && report.resumePerformance == PerformanceOf(mine)
    && report.averageDownloadsPerResume == Average(TotalDownloads(mine), |mine|)
    && report.averageViewsPerResume == Average(TotalViews(mine), |mine|)
  }

  /** What filling does to one of the user's résumés: one without
      analytics gets `fill` of its `Id`, one with analytics is kept. */
  function FillGap(r: Resume, fill: int -> Analytics): Resume {
    if r.analytics.None? then r.(analytics := Some(fill(r.Id))) else r
  }

  /** The filled store's résumés of the user are the old ones, in the same
      order, each with its gap filled. */
  lemma {:induction false} FilterFilled(resumes: seq<Resume>, userId: int, fill: int -> Analytics)
    ensures var before := UserResumes(resumes, userId);
            var after := UserResumes(Filled(resumes, userId, fill), userId);
            |after| == |before| && forall k :: 0 <= k < |after| ==> after[k] == FillGap(before[k], fill)
    decreases |resumes|
  {
    if resumes != [] {
      var n := |resumes|;
      var init := resumes[..n - 1];
      FilterFilled(init, userId, fill);
      var f := Filled(resumes, userId, fill);
      assert f[..n - 1] == Filled(init, userId, fill);
      assert f[n - 1].userId == resumes[n - 1].userId;
      assert resumes[n - 1].userId == userId ==> f[n - 1] == FillGap(resumes[n - 1], fill);
    }
  }

  // ---------------------------------------------------------------------
  // The store
  // ---------------------------------------------------------------------

  /** `mockResumes` and the service operations that change it. */
  class ResumeStore {
    var resumes: seq<Resume>

    constructor (initial: seq<Resume>)
      ensures resumes == initial
    {
      resumes := initial;
    }

    /** `generateResume(userId, jobAnalysisId, templateId, profile,
        customization)`. */
    method GenerateResume(templates: seq<Template>, userId: int, jobAnalysisId: int, templateId: int,
                          profile: Profiles.Profile, customization: Option<Customization>,
                          dateLabel: string, now: int) returns (r: Result<Resume>)
      requires resumes != [] || forall j :: 0 <= j < |templates| ==> templates[j].Id != templateId
      modifies this
      ensures FindTemplate(templates, templateId).None? ==>
                r == Err("Template not found") && resumes == old(resumes)
      ensures FindTemplate(templates, templateId).Some? ==>
                old(resumes) != [] && r.Ok? &&
                r.value == NewResume(old(resumes), userId, jobAnalysisId,
                                     templates[FindTemplate(templates, templateId).value],
                                     profile, customization, dateLabel, now) &&
                resumes == old(resumes) + [r.value]
    {
      var t := FindTemplate(templates, templateId);
      if t.None? {
        return Err("Template not found");
      }
      var resume := NewResume(resumes, userId, jobAnalysisId, templates[t.value], profile,
                              customization, dateLabel, now);
      resumes := resumes + [resume];
      r := Ok(resume);
    }

    /** `deleteResume(resumeId)`: splice out the first résumé with that `Id`. */
    method DeleteResume(resumeId: int) returns (r: Result<()>)
      modifies this
      ensures FindResume(old(resumes), resumeId).None? ==>
                r == Err("Resume not found") && resumes == old(resumes)
      ensures FindResume(old(resumes), resumeId).Some? ==>
                var i := FindResume(old(resumes), resumeId).value;
                r == Ok(()) && resumes == old(resumes)[..i] + old(resumes)[i + 1..]
    {
      var i := FindResume(resumes, resumeId);
      if i.None? {
        return Err("Resume not found");
      }
      resumes := resumes[..i.value] + resumes[i.value + 1..];
      r := Ok(());
    }

    /** `trackDownload(resumeId)`, with the moment passed in. */
    method TrackDownload(resumeId: int, rec: HistoryRecord)
      modifies this
      ensures resumes == Tracked(old(resumes), resumeId, Download, rec)
    {
      var i := FindResume(resumes, resumeId);
      if i.Some? {
        var a := AnalyticsOf(resumes[i.value]);
        a := a.(downloads := a.downloads + 1, downloadHistory := a.downloadHistory + [rec]);
        resumes := resumes[i.value := resumes[i.value].(analytics := Some(a))];
      }
    }

    /** `trackView(resumeId)`, with the moment passed in. */
    method TrackView(resumeId: int, rec: HistoryRecord)
      modifies this
      ensures resumes == Tracked(old(resumes), resumeId, View, rec)
    {
      var i := FindResume(resumes, resumeId);
      if i.Some? {
        var a := AnalyticsOf(resumes[i.value]);
        a := a.(views := a.views + 1, viewHistory := a.viewHistory + [rec]);
        resumes := resumes[i.value := resumes[i.value].(analytics := Some(a))];
      }
    }

    /** `getAnalytics(userId)`: fill in the user's missing analytics with
        the records `fill` supplies, then report over the user's résumés. */
    method GetAnalytics(userId: int, fill: int -> Analytics, current: int) returns (report: Report)
      modifies this
      ensures resumes == Filled(old(resumes), userId, fill)
      ensures ReportOf(report, UserResumes(resumes, userId), current)
    {
      var i := 0;
      while i < |resumes|
        invariant 0 <= i <= |resumes| && |resumes| == |old(resumes)|
        invariant resumes[..i] == Filled(old(resumes), userId, fill)[..i]
        invariant resumes[i..] == old(resumes)[i..]
      {
        if resumes[i].userId == userId && resumes[i].analytics.None? {
          resumes := resumes[i := resumes[i].(analytics := Some(fill(resumes[i].Id)))];
        }
        assert resumes[i] == Filled(old(resumes), userId, fill)[i] by {
          assert old(resumes)[i] == old(resumes)[i..][0];
        }
        i := i + 1;
      }
      assert resumes == resumes[..i];
      var mine := UserResumes(resumes, userId);
      var totalDownloads := TotalDownloads(mine);
      var totalViews := TotalViews(mine);
      var monthly := MonthlyTrends(mine, current);
      report := Report(totalDownloads, totalViews, |mine|, monthly, PerformanceOf(mine),
                       Average(totalDownloads, |mine|), Average(totalViews, |mine|));
    }
  }

  /** Deleting removes exactly one entry and keeps the others in order. */
  lemma DeleteEffect(resumes: seq<Resume>, i: nat)
    requires i < |resumes|
    ensures var s := resumes[..i] + resumes[i + 1..];
      && |s| == |resumes| - 1
      && (forall j :: 0 <= j < i ==> s[j] == resumes[j])
      && (forall j :: i <= j < |s| ==> s[j] == resumes[j + 1])
      && multiset(s) + multiset{resumes[i]} == multiset(resumes)
  {
    var s := resumes[..i] + resumes[i + 1..];
    assert resumes == resumes[..i] + [resumes[i]] + resumes[i + 1..];
  }

  /** With no résumés the report is all zeros. */
  lemma EmptyReport(report: Report, current: int)
    requires ReportOf(report, [], current)
    ensures report.totalDownloads == 0 && report.totalViews == 0 && report.totalResumes == 0
    ensures report.averageDownloadsPerResume == 0 && report.averageViewsPerResume == 0
    ensures forall k :: 0 <= k < 6 ==> report.monthlyTrends[k].downloads == 0 && report.monthlyTrends[k].views == 0
  {
  }

  /** The monthly buckets of a report hold no more than the records. */
  lemma ReportTrendsBounded(report: Report, mine: seq<Resume>, current: int)
    requires ReportOf(report, mine, current)
    ensures SumDownloads(report.monthlyTrends) <= |Records(mine, Download)|
    ensures SumViews(report.monthlyTrends) <= |Records(mine, View)|
  {
    TrendTotalsBounded(report.monthlyTrends, current, Records(mine, Download), Records(mine, View));
  }
}
