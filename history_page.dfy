/** The history page: the search filter, the in-place sort of the filtered
    list, the local list update after a delete, and the statistics. */
module HistoryPage {

  import opened Text
  import opened Collections
  import ResumeService

  type Resume = ResumeService.Resume

  // ---------------------------------------------------------------------
  // Filtering
  // ---------------------------------------------------------------------

  predicate TitleMatches(r: Resume, term: string) {
    Contains(Lower(r.title), Lower(term))
  }

  /** `resumes.filter(r => r.title.toLowerCase().includes(term.toLowerCase()))`. */
  function FilterResumes(resumes: seq<Resume>, term: string): (r: seq<Resume>)
    ensures forall x :: x in r <==> x in resumes && TitleMatches(x, term)
  {
    Filter(resumes, (x: Resume) => TitleMatches(x, term))
  }

  /** An empty search keeps every résumé, in order. */
  lemma EmptySearchKeepsAll(resumes: seq<Resume>)
    ensures FilterResumes(resumes, "") == resumes
  {
    forall x | x in resumes ensures TitleMatches(x, "") {
      ContainsEmpty(Lower(x.title));
    }
    FilterAll(resumes, (x: Resume) => TitleMatches(x, ""));
  }

  /** The search ignores case in both the titles and the term. */
  lemma SearchIgnoresCase(resumes: seq<Resume>, term: string)
    ensures FilterResumes(resumes, term) == FilterResumes(resumes, Lower(term))
  {
    LowerIdempotent(term);
    FilterExtensional(resumes, (x: Resume) => TitleMatches(x, term),
                      (x: Resume) => TitleMatches(x, Lower(term)));
  }

  // ---------------------------------------------------------------------
  // Orders
  // ---------------------------------------------------------------------

  /** Code-unit lexicographic order on strings, standing in for
      `localeCompare`. */
  predicate LexLe(a: string, b: string)
    decreases |a|
  {
    if a == [] then true
    else if b == [] then false
    else if a[0] != b[0] then a[0] < b[0]
    else LexLe(a[1..], b[1..])
  }

  lemma {:induction false} LexTotal(a: string, b: string)
    ensures LexLe(a, b) || LexLe(b, a)
    decreases |a|
  {
    if a != [] && b != [] && a[0] == b[0] {
      LexTotal(a[1..], b[1..]);
    }
  }

  lemma {:induction false} LexTransitive(a: string, b: string, c: string)
    requires LexLe(a, b) && LexLe(b, c)
    ensures LexLe(a, c)
    decreases |a|
  {
    if a != [] && b != [] && c != [] && a[0] == b[0] && b[0] == c[0] {
      LexTransitive(a[1..], b[1..], c[1..]);
    }
  }

  ghost predicate Total<T(!new)>(le: (T, T) -> bool) {
    forall x, y :: le(x, y) || le(y, x)
  }

  ghost predicate Transitive<T(!new)>(le: (T, T) -> bool) {
    forall x, y, z :: le(x, y) && le(y, z) ==> le(x, z)
  }

  predicate SortedBy<T>(s: seq<T>, le: (T, T) -> bool) {
    forall i, j :: 0 <= i < j < |s| ==> le(s[i], s[j])
  }

  /** The `sortBy` select: 'newest', 'oldest', 'title', or anything else. */
  datatype SortBy = Newest | Oldest | ByTitle | Unsorted

  function ParseSortBy(s: string): (r: SortBy)
    ensures r == Newest <==> s == "newest"
    ensures r == Oldest <==> s == "oldest"
    ensures r == ByTitle <==> s == "title"
  {
    if s == "newest" then Newest else if s == "oldest" then Oldest
    else if s == "title" then ByTitle else Unsorted
  }

  function NewestFirst(x: Resume, y: Resume): bool { x.createdAt >= y.createdAt }
  function OldestFirst(x: Resume, y: Resume): bool { x.createdAt <= y.createdAt }
  function TitleOrder(x: Resume, y: Resume): bool { LexLe(x.title, y.title) }

  lemma TitleOrderIsTotalPreorder()
    ensures Total(TitleOrder) && Transitive(TitleOrder)
  {
    forall x: Resume, y: Resume ensures TitleOrder(x, y) || TitleOrder(y, x) {
      LexTotal(x.title, y.title);
    }
    forall x: Resume, y: Resume, z: Resume | TitleOrder(x, y) && TitleOrder(y, z)
      ensures TitleOrder(x, z)
    {
      LexTransitive(x.title, y.title, z.title);
    }
  }

  // ---------------------------------------------------------------------
  // The in-place sort
  // ---------------------------------------------------------------------

  /** `a.sort(cmp)` for a comparator whose "not after" relation is `le`:
      insertion sort by adjacent swaps. */
  method SortInPlace<T(!new)>(a: array<T>, le: (T, T) -> bool)
    requires Total(le) && Transitive(le)
    modifies a
    ensures SortedBy(a[..], le)
    ensures multiset(a[..]) == multiset(old(a[..]))
  {
    if a.Length == 0 {
      return;
    }
    var i := 1;
    while i < a.Length
      invariant 1 <= i <= a.Length
      invariant SortedBy(a[..i], le)
      invariant multiset(a[..]) == multiset(old(a[..]))
    {
      SinkLast(a, i, le);
      i := i + 1;
    }
    assert a[..i] == a[..];
  }

  /** One pass of the insertion sort: moves `a[i]` down into the sorted
      prefix `a[..i]`, leaving `a[..i + 1]` sorted. */
  method SinkLast<T(!new)>(a: array<T>, i: nat, le: (T, T) -> bool)
    requires Total(le) && Transitive(le)
    requires i < a.Length && SortedBy(a[..i], le)
    modifies a
    ensures SortedBy(a[..i + 1], le)
    ensures multiset(a[..]) == multiset(old(a[..]))
  {
    var j := i;
    while j > 0 && !le(a[j - 1], a[j])
      invariant 0 <= j <= i
      invariant forall k, l :: 0 <= k < l <= i && k != j && l != j ==> le(a[k], a[l])
      invariant forall l :: j < l <= i ==> le(a[j], a[l])
      invariant multiset(a[..]) == multiset(old(a[..]))
    {
      a[j - 1], a[j] := a[j], a[j - 1];
      j := j - 1;
    }
  }

  /** `filterAndSortResumes()`: the filtered list, sorted as `sortBy` asks. */
  method FilterAndSort(resumes: seq<Resume>, term: string, sortBy: string) returns (r: seq<Resume>)
    ensures multiset(r) == multiset(FilterResumes(resumes, term))
    ensures forall x :: x in r <==> x in resumes && TitleMatches(x, term)
    ensures ParseSortBy(sortBy) == Newest ==> SortedBy(r, NewestFirst)
    ensures ParseSortBy(sortBy) == Oldest ==> SortedBy(r, OldestFirst)
    ensures ParseSortBy(sortBy) == ByTitle ==> SortedBy(r, TitleOrder)
    ensures ParseSortBy(sortBy) == Unsorted ==> r == FilterResumes(resumes, term)
  {
    var filtered := FilterResumes(resumes, term);
    var a := new Resume[|filtered|](k requires 0 <= k < |filtered| => filtered[k]);
    assert a[..] == filtered;
    match ParseSortBy(sortBy) {
      case Newest =>
        SortInPlace(a, NewestFirst);
      case Oldest =>
        SortInPlace(a, OldestFirst);
      case ByTitle =>
        TitleOrderIsTotalPreorder();
        SortInPlace(a, TitleOrder);
      case Unsorted =>
    }
    r := a[..];
    assert forall x :: x in r <==> x in multiset(filtered);
  }

  // ---------------------------------------------------------------------
  // Deleting and the statistics
  // ---------------------------------------------------------------------

  /** `resumes.filter(r => r.Id !== resumeId)` after a successful delete. */
  function AfterDelete(resumes: seq<Resume>, resumeId: int): (r: seq<Resume>)
    ensures forall x :: x in r <==> x in resumes && x.Id != resumeId
  {
    Filter(resumes, (x: Resume) => x.Id != resumeId)
  }

  /** The local list keeps the other résumés in their order. */
  lemma AfterDeleteOrder(resumes: seq<Resume>, resumeId: int)
    ensures IsSubsequence(AfterDelete(resumes, resumeId), resumes)
    ensures forall x: Resume :: x.Id != resumeId ==>
              multiset(AfterDelete(resumes, resumeId))[x] == multiset(resumes)[x]
  {
    FilterIsSubsequence(resumes, (x: Resume) => x.Id != resumeId);
    forall x: Resume | x.Id != resumeId
      ensures multiset(AfterDelete(resumes, resumeId))[x] == multiset(resumes)[x]
    {
      FilterMultiset(resumes, (y: Resume) => y.Id != resumeId, x);
    }
  }

  const WeekMs := 7 * 24 * 60 * 60 * 1000
  const MonthMs := 30 * 24 * 60 * 60 * 1000

  /** The résumés created after `now - window`. */
  function CreatedWithin(resumes: seq<Resume>, now: int, window: int): nat {
    |Filter(resumes, (x: Resume) => x.createdAt > now - window)|
  }

  /** This week's count is at most this month's, which is at most the
      total. */
  lemma StatsOrdered(resumes: seq<Resume>, now: int)
    ensures CreatedWithin(resumes, now, WeekMs) <= CreatedWithin(resumes, now, MonthMs) <= |resumes|
  {
    FilterMonotone(resumes, (x: Resume) => x.createdAt > now - WeekMs,
                   (x: Resume) => x.createdAt > now - MonthMs);
  }

  /** `new Set(resumes.map(r => r.templateId))`. */
  function TemplateIds(resumes: seq<Resume>): (t: set<int>)
    ensures forall id :: id in t <==> exists i :: 0 <= i < |resumes| && resumes[i].templateId == id
    ensures |t| <= |resumes|
  {
    if resumes == [] then {}
    else
      var rest := TemplateIds(resumes[1..]);
      assert forall i :: 1 <= i < |resumes| ==> resumes[i] == resumes[1..][i - 1];
      rest + {resumes[0].templateId}
  }
}
