/** The job-description analyser: keyword extraction against three fixed
    vocabularies, the years-of-experience pattern, the match-strength
    threshold, and the in-memory store of analyses. */
module JobAnalysis {

  import opened Wrappers
  import opened Text
  import opened Collections

  // ---------------------------------------------------------------------
  // Vocabularies
  // ---------------------------------------------------------------------

  /** The technical-skill vocabulary in its listed order, written as four
      runs of at most eleven terms that are compared run by run. */
  const TechSkills: seq<string> := TechRun0 + TechRun1 + TechRun2 + TechRun3

  const TechRun0: seq<string> := [
    "javascript", "typescript", "react", "angular", "vue", "node.js", "python",
    "java", "c#", "php", "ruby"
  ]

  const TechRun1: seq<string> := [
    "go", "rust", "html", "css", "sass", "scss", "postgresql", "mysql", "mongodb",
    "redis", "aws"
  ]

  const TechRun2: seq<string> := [
    "azure", "gcp", "docker", "kubernetes", "git", "jenkins", "ci/cd", "agile",
    "scrum", "rest api", "graphql"
  ]

  const TechRun3: seq<string> := [
    "microservices", "webpack", "babel", "jest", "cypress", "selenium", "linux",
    "nginx", "apache", "terraform"
  ]

  const SoftSkills: seq<string> := [
    "leadership", "communication", "teamwork", "problem solving",
    "critical thinking", "time management", "project management",
    "collaboration", "mentoring", "coaching", "analytical thinking"
  ]

  const ExperienceLevels: seq<string> := [
    "junior", "senior", "lead", "principal", "architect", "manager",
    "director", "entry level", "mid level", "experienced"
  ]

  // ---------------------------------------------------------------------
  // Results
  // ---------------------------------------------------------------------

  datatype Strength = Low | Medium | High

  datatype Keywords = Keywords(
    technicalSkills: seq<string>,
    softSkills: seq<string>,
    experienceLevel: seq<string>,
    yearsRequired: Option<string>,
    matchStrength: Strength)

  datatype Analysis = Analysis(
    Id: int,
    userId: int,
    jobDescription: string,
    extractedKeywords: Keywords,
    createdAt: int)

  // ---------------------------------------------------------------------
  // Vocabulary scan
  // ---------------------------------------------------------------------

  /** The terms of `vocab`, in vocabulary order, that occur in `text`. */
  function Found(vocab: seq<string>, text: string): seq<string>
    decreases |vocab|
  {
    if vocab == [] then []
    else
      var last := vocab[|vocab| - 1];
      Found(vocab[..|vocab| - 1], text) + (if Contains(text, last) then [last] else [])
  }

  /** A term is found exactly when it is in the vocabulary and occurs. */
  lemma {:induction false} FoundMembers(vocab: seq<string>, text: string, w: string)
    ensures w in Found(vocab, text) <==> w in vocab && Contains(text, w)
    decreases |vocab|
  {
    if vocab != [] {
      var init := vocab[..|vocab| - 1];
      FoundMembers(init, text, w);
      assert vocab == init + [vocab[|vocab| - 1]];
    }
  }

  /** `Found` is the vocabulary filtered by containment, so it keeps the
      vocabulary's order and repeats nothing the vocabulary does not. */
  lemma {:induction false} FoundIsFilter(vocab: seq<string>, text: string)
    ensures Found(vocab, text) == Filter(vocab, w => Contains(text, w))
    decreases |vocab|
  {
    if vocab != [] {
      FoundIsFilter(vocab[..|vocab| - 1], text);
    }
  }

  lemma FoundIsSubsequence(vocab: seq<string>, text: string)
    ensures IsSubsequence(Found(vocab, text), vocab)
  {
    FoundIsFilter(vocab, text);
    FilterIsSubsequence(vocab, w => Contains(text, w));
  }

  lemma FoundDistinct(vocab: seq<string>, text: string)
    requires Distinct(vocab)
    ensures Distinct(Found(vocab, text))
  {
    FoundIsFilter(vocab, text);
    FilterDistinct(vocab, w => Contains(text, w));
  }

  /** `vocab.forEach(w => { if (text.includes(w)) found.push(w); })`. */
  method FindTerms(vocab: seq<string>, text: string) returns (found: seq<string>)
    ensures found == Found(vocab, text)
  {
    found := [];
    var i := 0;
    while i < |vocab|
      invariant 0 <= i <= |vocab|
      invariant found == Found(vocab[..i], text)
    {
      assert vocab[..i + 1][..i] == vocab[..i];
      if Contains(text, vocab[i]) {
        found := found + [vocab[i]];
      }
      i := i + 1;
    }
    assert vocab[..i] == vocab;
  }

  // ---------------------------------------------------------------------
  // The pattern /(\d+)\+?\s*years?\s*(of\s+)?experience/
  // ---------------------------------------------------------------------

  /** The three words of the pattern, spelt out character by character at
      index `i` of `t`. */
  predicate YearAt(t: string, i: nat) {
    i + 4 <= |t| && t[i] == 'y' && t[i + 1] == 'e' && t[i + 2] == 'a' && t[i + 3] == 'r'
  }

  predicate OfAt(t: string, i: nat) {
    i + 2 <= |t| && t[i] == 'o' && t[i + 1] == 'f'
  }

  predicate ExperienceAt(t: string, i: nat) {
    && i + 10 <= |t|
    && t[i] == 'e' && t[i + 1] == 'x' && t[i + 2] == 'p' && t[i + 3] == 'e' && t[i + 4] == 'r'
    && t[i + 5] == 'i' && t[i + 6] == 'e' && t[i + 7] == 'n' && t[i + 8] == 'c' && t[i + 9] == 'e'
  }

  lemma ExperienceSlice(t: string, i: nat)
    requires ExperienceAt(t, i)
    ensures t[i..i + 10] == "experience"
  {
  }

  /** First index at or after `i` that is not a decimal digit. */
  function DigitsEnd(t: string, i: nat): (e: nat)
    requires i <= |t|
    ensures i <= e <= |t|
    ensures forall k :: i <= k < e ==> IsDigit(t[k])
    ensures e < |t| ==> !IsDigit(t[e])
    decreases |t| - i
  {
    if i < |t| && IsDigit(t[i]) then DigitsEnd(t, i + 1) else i
  }

  /** First index at or after `i` that is not whitespace. */
  function SpacesEnd(t: string, i: nat): (e: nat)
    requires i <= |t|
    ensures i <= e <= |t|
    ensures forall k :: i <= k < e ==> IsSpace(t[k])
    ensures e < |t| ==> !IsSpace(t[e])
    decreases |t| - i
  {
    if i < |t| && IsSpace(t[i]) then SpacesEnd(t, i + 1) else i
  }

  /** Where a match of the pattern that starts at `i` ends, if one does.
      Every part of the pattern is greedy and no backtracking into a part
      can rescue a failed match (the character a part gives back can never
      start the part after it), so the match from a given start is unique
      and this scan finds it. */
  function MatchAt(t: string, i: nat): (r: Option<nat>)
    requires i <= |t|
    ensures r.Some? ==> i < r.value <= |t|
  {
    var d := DigitsEnd(t, i);
    if d == i then None
    else MatchYears(t, if d < |t| && t[d] == '+' then d + 1 else d)
  }

  /** The rest of the pattern, `\s*years?\s*(of\s+)?experience`, from `p`. */
  function MatchYears(t: string, p: nat): (r: Option<nat>)
    requires p <= |t|
    ensures r.Some? ==> p + 14 <= r.value <= |t| && ExperienceAt(t, r.value - 10)
  {
    var s1 := SpacesEnd(t, p);
    if !YearAt(t, s1) then None
    else
      var y := if s1 + 4 < |t| && t[s1 + 4] == 's' then s1 + 5 else s1 + 4;
      MatchExperience(t, SpacesEnd(t, y))
  }

  /** `(of\s+)?experience` from `s`. */
  function MatchExperience(t: string, s: nat): (r: Option<nat>)
    requires s <= |t|
    ensures r.Some? ==> s + 10 <= r.value <= |t| && ExperienceAt(t, r.value - 10)
  {
    var o := if OfAt(t, s) && SpacesEnd(t, s + 2) > s + 2 then SpacesEnd(t, s + 2) else s;
    if ExperienceAt(t, o) then Some(o + 10) else None
  }

  /** A match begins with a digit and ends with "experience". */
  lemma MatchShape(t: string, i: nat)
    requires i <= |t| && MatchAt(t, i).Some?
    ensures i < |t| && IsDigit(t[i])
    ensures MatchAt(t, i).value >= i + 11
    ensures t[MatchAt(t, i).value - 10..MatchAt(t, i).value] == "experience"
  {
    ExperienceSlice(t, MatchAt(t, i).value - 10);
  }

  /** The result of a match attempt at every start `0 ..= |t|`, in the
      order in which the engine tries them. */
  function Starts(t: string): (s: seq<Option<nat>>)
    ensures |s| == |t| + 1
    ensures forall k :: 0 <= k <= |t| ==> s[k] == MatchAt(t, k)
  {
    seq(|t| + 1, k requires 0 <= k <= |t| => MatchAt(t, k))
  }

  /** The first attempt at or after `from` that succeeds. */
  function FirstSome(s: seq<Option<nat>>, from: nat): (r: Option<nat>)
    requires from <= |s|
    ensures r.Some? ==> from <= r.value < |s| && s[r.value].Some?
    ensures r.Some? ==> forall k :: from <= k < r.value ==> s[k].None?
    ensures r.None? ==> forall k :: from <= k < |s| ==> s[k].None?
    decreases |s| - from
  {
    if from == |s| then None
    else if s[from].Some? then Some(from)
    else FirstSome(s, from + 1)
  }

  /** `text.match(pattern)[0]`, or `None` for `null`: the leftmost match. */
  function FirstYears(t: string): (r: Option<string>)
    ensures r.None? <==> forall k :: 0 <= k <= |t| ==> MatchAt(t, k).None?
    ensures r.Some? ==> exists k :: 0 <= k <= |t| && MatchAt(t, k).Some?
                         && r.value == t[k..MatchAt(t, k).value]
                         && forall k' :: 0 <= k' < k ==> MatchAt(t, k').None?
  {
    var s := Starts(t);
    var k := FirstSome(s, 0);
    if k.None? then None else Some(t[k.value..s[k.value].value])
  }

  /** The years phrase starts with a digit and ends with "experience". */
  lemma FirstYearsShape(t: string)
    requires FirstYears(t).Some?
    ensures |FirstYears(t).value| >= 11
    ensures IsDigit(FirstYears(t).value[0])
    ensures FirstYears(t).value[|FirstYears(t).value| - 10..] == "experience"
  {
    var k := FirstSome(Starts(t), 0).value;
    assert FirstYears(t).value == t[k..MatchAt(t, k).value];
    MatchedText(t, k);
  }

  /** The text a match covers starts with a digit and ends with
      "experience". */
  lemma MatchedText(t: string, k: nat)
    requires k <= |t| && MatchAt(t, k).Some?
    ensures var r := t[k..MatchAt(t, k).value];
      |r| >= 11 && IsDigit(r[0]) && r[|r| - 10..] == "experience"
  {
    var e := MatchAt(t, k).value;
    MatchShape(t, k);
    assert t[k..e][e - k - 10..] == t[e - 10..e];
  }

  // ---------------------------------------------------------------------
  // What the pattern accepts, stated apart from the scan
  // ---------------------------------------------------------------------

  predicate DigitsIn(t: string, a: nat, b: nat)
    requires a <= b <= |t|
  {
    forall k :: a <= k < b ==> IsDigit(t[k])
  }

  predicate SpacesIn(t: string, a: nat, b: nat)
    requires a <= b <= |t|
  {
    forall k :: a <= k < b ==> IsSpace(t[k])
  }

  /** `(of\s+)?experience` laid out in `t`: the optional group "of" plus
      white space in `[s2, o)`, then "experience" at `o`. */
  predicate ExperienceSplit(t: string, s2: nat, o: nat) {
    && s2 <= o && ExperienceAt(t, o)
    && (o == s2 || (OfAt(t, s2) && s2 + 2 < o && SpacesIn(t, s2 + 2, o)))
  }

  /** `\s*years?\s*(of\s+)?experience` laid out in `t`: white space in
      `[p, s1)`, "year" at `s1` and an optional "s" up to `y`, white space in
      `[y, s2)`, then the rest from `s2` with "experience" at `o`. */
  predicate YearsSplit(t: string, p: nat, s1: nat, y: nat, s2: nat, o: nat) {
    && p <= s1 && s1 + 4 <= y <= s2 && ExperienceSplit(t, s2, o)
    && SpacesIn(t, p, s1) && YearAt(t, s1)
    && (y == s1 + 4 || (y == s1 + 5 && t[s1 + 4] == 's'))
    && SpacesIn(t, y, s2)
  }

  /** `t[i..e]` splits as the whole pattern
      `(\d+)\+?\s*years?\s*(of\s+)?experience` reads: digits in `[i, d)`,
      an optional "+" in `[d, p)`, and the rest from `p` up to `e`. */
  predicate PatternSplit(t: string, i: nat, d: nat, p: nat, s1: nat, y: nat, s2: nat, o: nat, e: nat) {
    && i < d <= p && o + 10 == e && YearsSplit(t, p, s1, y, s2, o)
    && DigitsIn(t, i, d)
    && (p == d || (p == d + 1 && t[d] == '+'))
  }

  /** `w` is, as a whole, a match of the pattern. */
  ghost predicate IsYearsPhrase(w: string) {
    exists d: nat, p: nat, s1: nat, y: nat, s2: nat, o: nat :: PatternSplit(w, 0, d, p, s1, y, s2, o, |w|)
  }

  lemma {:induction false} DigitsEndAt(t: string, i: nat, e: nat)
    requires i <= e <= |t| && DigitsIn(t, i, e)
    requires e < |t| ==> !IsDigit(t[e])
    ensures DigitsEnd(t, i) == e
    decreases e - i
  {
    if i < e {
      DigitsEndAt(t, i + 1, e);
    }
  }

  lemma {:induction false} SpacesEndAt(t: string, i: nat, e: nat)
    requires i <= e <= |t| && SpacesIn(t, i, e)
    requires e < |t| ==> !IsSpace(t[e])
    ensures SpacesEnd(t, i) == e
    decreases e - i
  {
    if i < e {
      SpacesEndAt(t, i + 1, e);
    }
  }

  /** `(of\s+)?experience` laid out from `s2` is what the scan finds there. */
  lemma SplitExperience(t: string, s2: nat, o: nat)
    requires ExperienceSplit(t, s2, o)
    ensures MatchExperience(t, s2) == Some(o + 10)
  {
    if o != s2 {
      SpacesEndAt(t, s2 + 2, o);
    }
  }

  /** `\s*years?\s*(of\s+)?experience` laid out from `p` is what the scan
      finds there. */
  lemma SplitYears(t: string, p: nat, s1: nat, y: nat, s2: nat, o: nat)
    requires YearsSplit(t, p, s1, y, s2, o)
    ensures MatchYears(t, p) == Some(o + 10)
  {
    SpacesEndAt(t, p, s1);
    assert y < |t| && !IsSpace(t[s2]) && (y == s2 ==> t[y] != 's');
    SpacesEndAt(t, y, s2);
    SplitExperience(t, s2, o);
    MatchYearsStep(t, p, s1, y);
  }

  /** One unfolding of `MatchYears` once "year" was found at `s1`. */
  lemma MatchYearsStep(t: string, p: nat, s1: nat, y: nat)
    requires p <= |t| && SpacesEnd(t, p) == s1 && YearAt(t, s1)
    requires y == if s1 + 4 < |t| && t[s1 + 4] == 's' then s1 + 5 else s1 + 4
    ensures MatchYears(t, p) == MatchExperience(t, SpacesEnd(t, y))
  {
  }

  /** Every way of laying the pattern out from `i` is what the scan finds:
      the pattern matches at `i` exactly up to `e`. */
  lemma SplitMatches(t: string, i: nat, d: nat, p: nat, s1: nat, y: nat, s2: nat, o: nat, e: nat)
    requires PatternSplit(t, i, d, p, s1, y, s2, o, e)
    ensures MatchAt(t, i) == Some(e)
  {
    assert d < |t| && !IsDigit(t[d]) && (p == d ==> t[d] != '+');
    DigitsEndAt(t, i, d);
    SplitYears(t, p, s1, y, s2, o);
    MatchAtStep(t, i, d, p);
  }

  /** One unfolding of `MatchAt` once the digits end at `d > i`. */
  lemma MatchAtStep(t: string, i: nat, d: nat, p: nat)
    requires i < d <= |t| && DigitsEnd(t, i) == d
    requires p == if d < |t| && t[d] == '+' then d + 1 else d
    ensures MatchAt(t, i) == MatchYears(t, p)
  {
  }

  /** What the scan of `(of\s+)?experience` finds is laid out as the
      pattern says. */
  lemma ExperienceSplits(t: string, s2: nat)
    requires s2 <= |t| && MatchExperience(t, s2).Some?
    ensures ExperienceSplit(t, s2, MatchExperience(t, s2).value - 10)
  {
  }

  lemma YearsSplits(t: string, p: nat, o: nat)
    requires p <= |t| && MatchYears(t, p) == Some(o + 10)
    ensures exists s1: nat, y: nat, s2: nat :: YearsSplit(t, p, s1, y, s2, o)
  {
    var s1 := SpacesEnd(t, p);
    var y := if s1 + 4 < |t| && t[s1 + 4] == 's' then s1 + 5 else s1 + 4;
    var s2 := SpacesEnd(t, y);
    MatchYearsStep(t, p, s1, y);
    ExperienceSplits(t, s2);
    assert YearsSplit(t, p, s1, y, s2, o);
  }

  /** A match found by the scan lays the pattern out. */
  lemma MatchSplits(t: string, i: nat, e: nat)
    requires i <= |t| && MatchAt(t, i) == Some(e)
    ensures exists d: nat, p: nat, s1: nat, y: nat, s2: nat, o: nat :: PatternSplit(t, i, d, p, s1, y, s2, o, e)
  {
    var d := DigitsEnd(t, i);
    var p := if d < |t| && t[d] == '+' then d + 1 else d;
    MatchAtStep(t, i, d, p);
    DigitsSplits(t, i, d, p, e);
  }

  lemma DigitsSplits(t: string, i: nat, d: nat, p: nat, e: nat)
    requires i < d <= |t| && d == DigitsEnd(t, i)
    requires p == (if d < |t| && t[d] == '+' then d + 1 else d) && MatchYears(t, p) == Some(e)
    ensures exists d: nat, p: nat, s1: nat, y: nat, s2: nat, o: nat :: PatternSplit(t, i, d, p, s1, y, s2, o, e)
  {
    YearsSplits(t, p, e - 10);
    JoinSplit(t, i, d, p, e - 10, e);
  }

  /** Digits and an optional "+" in front of a laid out rest make a laid out
      pattern. */
  lemma JoinSplit(t: string, i: nat, d: nat, p: nat, o: nat, e: nat)
    requires i < d <= p <= |t| && DigitsIn(t, i, d) && (p == d || (p == d + 1 && t[d] == '+'))
    requires o + 10 == e && exists s1: nat, y: nat, s2: nat :: YearsSplit(t, p, s1, y, s2, o)
    ensures exists d: nat, p: nat, s1: nat, y: nat, s2: nat, o: nat :: PatternSplit(t, i, d, p, s1, y, s2, o, e)
  {
    var s1: nat, y: nat, s2: nat :| YearsSplit(t, p, s1, y, s2, o);
    assert PatternSplit(t, i, d, p, s1, y, s2, o, e);
  }

  // A layout inside `t[i..e]` is the same layout in `t`, shifted by `i`.

  lemma SpacesShift(t: string, i: nat, e: nat, a: nat, b: nat)
    requires i <= e <= |t| && a <= b <= e - i
    ensures SpacesIn(t[i..e], a, b) <==> SpacesIn(t, a + i, b + i)
  {
    assert forall k :: a <= k < b ==> t[i..e][k] == t[k + i];
  }

  lemma DigitsShift(t: string, i: nat, e: nat, a: nat, b: nat)
    requires i <= e <= |t| && a <= b <= e - i
    ensures DigitsIn(t[i..e], a, b) <==> DigitsIn(t, a + i, b + i)
  {
    assert forall k :: a <= k < b ==> t[i..e][k] == t[k + i];
  }

  lemma ExperienceSplitShift(t: string, i: nat, e: nat, s2: nat, o: nat)
    requires i <= e <= |t| && s2 <= o && o + 10 <= e - i
    ensures ExperienceSplit(t[i..e], s2, o) <==> ExperienceSplit(t, s2 + i, o + i)
  {
    if s2 + 2 <= o {
      SpacesShift(t, i, e, s2 + 2, o);
    }
  }

  lemma YearsSplitShift(t: string, i: nat, e: nat, p: nat, s1: nat, y: nat, s2: nat, o: nat)
    requires i <= e <= |t| && p <= s1 <= y <= s2 <= o && o + 10 <= e - i
    ensures YearsSplit(t[i..e], p, s1, y, s2, o) <==> YearsSplit(t, p + i, s1 + i, y + i, s2 + i, o + i)
  {
    ExperienceSplitShift(t, i, e, s2, o);
    SpacesShift(t, i, e, p, s1);
    SpacesShift(t, i, e, y, s2);
  }

  lemma PatternSplitShift(t: string, i: nat, e: nat, d: nat, p: nat, s1: nat, y: nat, s2: nat, o: nat)
    requires i <= e <= |t| && d <= p <= s1 <= y <= s2 <= o && o + 10 == e - i
    ensures PatternSplit(t[i..e], 0, d, p, s1, y, s2, o, e - i)
        <==> PatternSplit(t, i, d + i, p + i, s1 + i, y + i, s2 + i, o + i, e)
  {
    YearsSplitShift(t, i, e, p, s1, y, s2, o);
    DigitsShift(t, i, e, 0, d);
  }

  /** A layout of the pattern in `t` from `i` to `e` makes `t[i..e]` a
      years phrase, and a layout in `t[i..e]` is one in `t`. */
  lemma LayoutIsPhrase(t: string, i: nat, d: nat, p: nat, s1: nat, y: nat, s2: nat, o: nat, e: nat)
    requires e <= |t| && PatternSplit(t, i, d, p, s1, y, s2, o, e)
    ensures IsYearsPhrase(t[i..e])
  {
    PatternSplitShift(t, i, e, d - i, p - i, s1 - i, y - i, s2 - i, o - i);
    assert PatternSplit(t[i..e], 0, d - i, p - i, s1 - i, y - i, s2 - i, o - i, |t[i..e]|);
  }

  lemma PhraseIsLayout(t: string, i: nat, e: nat)
    requires i <= e <= |t| && IsYearsPhrase(t[i..e])
    ensures exists d: nat, p: nat, s1: nat, y: nat, s2: nat, o: nat :: PatternSplit(t, i, d, p, s1, y, s2, o, e)
  {
    var d: nat, p: nat, s1: nat, y: nat, s2: nat, o: nat :| PatternSplit(t[i..e], 0, d, p, s1, y, s2, o, |t[i..e]|);
    PatternSplitShift(t, i, e, d, p, s1, y, s2, o);
    assert PatternSplit(t, i, d + i, p + i, s1 + i, y + i, s2 + i, o + i, e);
  }

  /** The scan's match from `i` is a years phrase. */
  lemma MatchIsPhrase(t: string, i: nat, e: nat)
    requires i <= e <= |t| && MatchAt(t, i) == Some(e)
    ensures IsYearsPhrase(t[i..e])
  {
    MatchSplits(t, i, e);
    var d: nat, p: nat, s1: nat, y: nat, s2: nat, o: nat :| PatternSplit(t, i, d, p, s1, y, s2, o, e);
    LayoutIsPhrase(t, i, d, p, s1, y, s2, o, e);
  }

  /** A years phrase at `i` is what the scan matches from `i`. */
  lemma PhraseIsMatch(t: string, i: nat, e: nat)
    requires i <= e <= |t| && IsYearsPhrase(t[i..e])
    ensures MatchAt(t, i) == Some(e)
  {
    PhraseIsLayout(t, i, e);
    var d: nat, p: nat, s1: nat, y: nat, s2: nat, o: nat :| PatternSplit(t, i, d, p, s1, y, s2, o, e);
    SplitMatches(t, i, d, p, s1, y, s2, o, e);
  }

  /** The scan from `i` succeeds up to `e` exactly when `t[i..e]` is a years
      phrase; so a phrase starting at `i` has only one possible end. */
  lemma MatchIffPhrase(t: string, i: nat, e: nat)
    requires i <= e <= |t|
    ensures MatchAt(t, i) == Some(e) <==> IsYearsPhrase(t[i..e])
  {
    if MatchAt(t, i) == Some(e) {
      MatchIsPhrase(t, i, e);
    }
    if IsYearsPhrase(t[i..e]) {
      PhraseIsMatch(t, i, e);
    }
  }

  /** No start at all yields a match exactly when the text holds no years
      phrase anywhere. */
  lemma FirstYearsNone(t: string)
    ensures FirstYears(t).None? <==> forall k, e :: 0 <= k <= e <= |t| ==> !IsYearsPhrase(t[k..e])
  {
    if FirstYears(t).None? {
      forall k, e | 0 <= k <= e <= |t|
        ensures !IsYearsPhrase(t[k..e])
      {
        if IsYearsPhrase(t[k..e]) {
          PhraseIsMatch(t, k, e);
        }
      }
    } else {
      var k := FirstSome(Starts(t), 0).value;
      MatchIsPhrase(t, k, MatchAt(t, k).value);
    }
  }

  /** `text.match(pattern)[0]` is a years phrase, and no years phrase starts
      further left. */
  lemma FirstYearsLeftmost(t: string)
    requires FirstYears(t).Some?
    ensures exists k, e :: 0 <= k <= e <= |t| && FirstYears(t).value == t[k..e] && IsYearsPhrase(t[k..e])
                           && forall k', e' :: 0 <= k' < k && k' <= e' <= |t| ==> !IsYearsPhrase(t[k'..e'])
  {
    var k := FirstSome(Starts(t), 0).value;
    var e := MatchAt(t, k).value;
    MatchIsPhrase(t, k, e);
    forall k', e' | 0 <= k' < k && k' <= e' <= |t|
      ensures !IsYearsPhrase(t[k'..e'])
    {
      if IsYearsPhrase(t[k'..e']) {
        PhraseIsMatch(t, k', e');
      }
    }
    assert FirstYears(t).value == t[k..e];
  }

  // ---------------------------------------------------------------------
  // Match strength and the whole extraction
  // ---------------------------------------------------------------------

  /** `calculateMatchStrength(techCount, softCount)`. */
  function MatchStrength(techCount: nat, softCount: nat): (s: Strength)
    ensures s == High <==> techCount + softCount >= 8
    ensures s == Medium <==> 4 <= techCount + softCount < 8
    ensures s == Low <==> techCount + softCount < 4
  {
    var total := techCount + softCount;
    if total >= 8 then High else if total >= 4 then Medium else Low
  }

  /** What `extractKeywords(description)` returns. */
  function KeywordsOf(description: string): Keywords {
    var text := Lower(description);
    var tech := Found(TechSkills, text);
    var soft := Found(SoftSkills, text);
    Keywords(tech, soft, Found(ExperienceLevels, text), FirstYears(text),
             MatchStrength(|tech|, |soft|))
  }

  /** `extractKeywords`: three scans over the lower-cased description, the
      years pattern and the strength. */
  method ExtractKeywords(description: string) returns (k: Keywords)
    ensures k == KeywordsOf(description)
    ensures forall w :: w in k.technicalSkills <==> w in TechSkills && Contains(Lower(description), w)
    ensures forall w :: w in k.softSkills <==> w in SoftSkills && Contains(Lower(description), w)
    ensures forall w :: w in k.experienceLevel <==> w in ExperienceLevels && Contains(Lower(description), w)
  {
    var text := Lower(description);
    var foundSkills := FindTerms(TechSkills, text);
    var foundSoftSkills := FindTerms(SoftSkills, text);
    var foundExperience := FindTerms(ExperienceLevels, text);
    var yearsRequired := FirstYears(text);
    k := Keywords(foundSkills, foundSoftSkills, foundExperience, yearsRequired,
                  MatchStrength(|foundSkills|, |foundSoftSkills|));
    forall w ensures w in k.technicalSkills <==> w in TechSkills && Contains(text, w) {
      FoundMembers(TechSkills, text, w);
    }
    forall w ensures w in k.softSkills <==> w in SoftSkills && Contains(text, w) {
      FoundMembers(SoftSkills, text, w);
    }
    forall w ensures w in k.experienceLevel <==> w in ExperienceLevels && Contains(text, w) {
      FoundMembers(ExperienceLevels, text, w);
    }
  }

  /** No term is listed twice in any of the three vocabularies. */
  // The 43 technical skills, compared run by run.
  lemma TechRunsDistinct()
    ensures Distinct(TechRun0) && Distinct(TechRun1) && Distinct(TechRun2) && Distinct(TechRun3)
  {
  }

  lemma TechRunsDisjoint1()
    ensures Disjoint(TechRun0, TechRun1)
  {
  }

  lemma TechRunsDisjoint2()
    ensures Disjoint(TechRun0, TechRun2) && Disjoint(TechRun1, TechRun2)
  {
  }

  lemma TechRunsDisjoint3()
    ensures Disjoint(TechRun0, TechRun3) && Disjoint(TechRun1, TechRun3) && Disjoint(TechRun2, TechRun3)
  {
  }

  lemma TechSkillsDistinct()
    ensures Distinct(TechSkills)
  {
    TechRunsDistinct();
    TechRunsDisjoint1();
    TechRunsDisjoint2();
    TechRunsDisjoint3();
    DistinctConcat(TechRun0, TechRun1);
    DisjointConcat(TechRun0, TechRun1, TechRun2);
    DistinctConcat(TechRun0 + TechRun1, TechRun2);
    DisjointConcat(TechRun0, TechRun1, TechRun3);
    DisjointConcat(TechRun0 + TechRun1, TechRun2, TechRun3);
    DistinctConcat(TechRun0 + TechRun1 + TechRun2, TechRun3);
  }

  lemma SoftSkillsDistinct()
    ensures Distinct(SoftSkills)
  {
  }

  lemma ExperienceLevelsDistinct()
    ensures Distinct(ExperienceLevels)
  {
  }

  /** None of the three extracted lists holds a term twice. */
  lemma KeywordsDistinct(description: string)
    ensures Distinct(KeywordsOf(description).technicalSkills)
    ensures Distinct(KeywordsOf(description).softSkills)
    ensures Distinct(KeywordsOf(description).experienceLevel)
  {
    var text := Lower(description);
    TechSkillsDistinct();
    SoftSkillsDistinct();
    ExperienceLevelsDistinct();
    FoundDistinct(TechSkills, text);
    FoundDistinct(SoftSkills, text);
    FoundDistinct(ExperienceLevels, text);
  }

  /** Extraction ignores case: a description and its lower-case form give
      the same keywords. */
  lemma CaseInsensitive(description: string)
    ensures KeywordsOf(description) == KeywordsOf(Lower(description))
  {
    LowerIdempotent(description);
  }

  /** Containment has no word boundaries: a description mentioning
      "javascript" also yields "java". */
  lemma JavaFromJavascript(description: string)
    requires Contains(Lower(description), "javascript")
    ensures "java" in KeywordsOf(description).technicalSkills
  {
    assert "java" <= "javascript";
    assert TechSkills[7] == "java";
    ContainsTransitive(Lower(description), "javascript", "java");
    FoundMembers(TechSkills, Lower(description), "java");
  }

  /** Likewise "leadership" yields the experience level "lead". */
  lemma LeadFromLeadership(description: string)
    requires Contains(Lower(description), "leadership")
    ensures "lead" in KeywordsOf(description).experienceLevel
    ensures "leadership" in KeywordsOf(description).softSkills
  {
    assert "lead" <= "leadership";
    assert ExperienceLevels[2] == "lead" && SoftSkills[0] == "leadership";
    ContainsTransitive(Lower(description), "leadership", "lead");
    FoundMembers(ExperienceLevels, Lower(description), "lead");
    FoundMembers(SoftSkills, Lower(description), "leadership");
  }

  lemma {:induction false} FoundInEmpty(vocab: seq<string>)
    requires forall i :: 0 <= i < |vocab| ==> vocab[i] != []
    ensures Found(vocab, "") == []
    decreases |vocab|
  {
    if vocab != [] {
      FoundInEmpty(vocab[..|vocab| - 1]);
      assert !(vocab[|vocab| - 1] <= "");
    }
  }

  /** An empty description yields three empty lists, no years phrase and
      a low strength. */
  lemma EmptyDescription()
    ensures KeywordsOf("") == Keywords([], [], [], None, Low)
  {
    FoundInEmpty(TechSkills);
    FoundInEmpty(SoftSkills);
    FoundInEmpty(ExperienceLevels);
    assert MatchAt("", 0).None?;
  }

  /** A text that opens with "5+ years experience" has exactly that phrase
      as its first match. */
  lemma YearsAtStart(t: string)
    requires |t| >= 19 && t[..19] == "5+ years experience"
    ensures FirstYears(t) == Some("5+ years experience")
  {
    var y := "5+ years experience";
    assert forall k :: 0 <= k < 19 ==> t[k] == y[k];
    assert PatternSplit(t, 0, 1, 2, 3, 8, 9, 9, 19);
    SplitMatches(t, 0, 1, 2, 3, 8, 9, 9, 19);
    assert t[0..19] == y;
  }

  lemma PostingYears(description: string)
    requires |Lower(description)| >= 19 && Lower(description)[..19] == "5+ years experience"
    ensures KeywordsOf(description).yearsRequired == Some("5+ years experience")
  {
    YearsAtStart(Lower(description));
  }

  lemma TwoMembers(s: seq<string>, a: string, b: string)
    requires a in s && b in s && a != b
    ensures |s| >= 2
  {
  }

  /** The shape of a posting such as "5+ years experience in React and
      Node.js, strong leadership and communication skills": both frameworks
      are technical skills, both qualities are soft skills, "lead" is an
      experience level by containment in "leadership", the years phrase is
      the opening one, and four hits make the match at least medium. */
  lemma PostingShape(description: string)
    requires |Lower(description)| >= 19 && Lower(description)[..19] == "5+ years experience"
    requires Contains(Lower(description), "react") && Contains(Lower(description), "node.js")
    requires Contains(Lower(description), "leadership") && Contains(Lower(description), "communication")
    ensures var k := KeywordsOf(description);
      && "react" in k.technicalSkills && "node.js" in k.technicalSkills
      && "leadership" in k.softSkills && "communication" in k.softSkills
      && "lead" in k.experienceLevel
      && k.yearsRequired == Some("5+ years experience")
      && k.matchStrength != Low
  {
    var t := Lower(description);
    PostingTech(t);
    PostingSoft(t);
    LeadFromLeadership(description);
    PostingYears(description);
  }

  lemma PostingTech(t: string)
    requires Contains(t, "react") && Contains(t, "node.js")
    ensures "react" in Found(TechSkills, t) && "node.js" in Found(TechSkills, t)
    ensures |Found(TechSkills, t)| >= 2
  {
    assert TechSkills[2] == "react" && TechSkills[5] == "node.js";
    FoundMembers(TechSkills, t, "react");
    FoundMembers(TechSkills, t, "node.js");
    TwoMembers(Found(TechSkills, t), "react", "node.js");
  }

  lemma PostingSoft(t: string)
    requires Contains(t, "leadership") && Contains(t, "communication")
    ensures "leadership" in Found(SoftSkills, t) && "communication" in Found(SoftSkills, t)
    ensures |Found(SoftSkills, t)| >= 2
  {
    assert SoftSkills[0] == "leadership" && SoftSkills[1] == "communication";
    FoundMembers(SoftSkills, t, "leadership");
    FoundMembers(SoftSkills, t, "communication");
    TwoMembers(Found(SoftSkills, t), "leadership", "communication");
  }

  // ---------------------------------------------------------------------
  // The store of analyses
  // ---------------------------------------------------------------------

  /** `mockJobAnalyses` and the two service calls over it. */
  class AnalysisStore {
    var analyses: seq<Analysis>

    constructor (initial: seq<Analysis>)
      ensures analyses == initial
    {
      analyses := initial;
    }

    /** `analyzeJobDescription`: record one analysis of the description,
        numbered one past the largest existing `Id`. */
    method AnalyzeJobDescription(userId: int, jobDescription: string, createdAt: int)
      returns (a: Analysis)
      requires analyses != []
      modifies this
      ensures a == Analysis(NextAnalysisId(old(analyses)), userId, jobDescription,
                            KeywordsOf(jobDescription), createdAt)
      ensures analyses == old(analyses) + [a]
    {
      var keywords := ExtractKeywords(jobDescription);
      a := Analysis(NextAnalysisId(analyses), userId, jobDescription, keywords, createdAt);
      analyses := analyses + [a];
    }
  }

  /** `Math.max(...analyses.map(a => a.Id)) + 1`: one past the largest
      `Id`, so above every `Id` in the store. */
  function NextAnalysisId(analyses: seq<Analysis>): (id: int)
    requires analyses != []
    ensures forall i :: 0 <= i < |analyses| ==> analyses[i].Id < id
    ensures exists i :: 0 <= i < |analyses| && analyses[i].Id == id - 1
  {
    MaxKey(analyses, (x: Analysis) => x.Id) + 1
  }

  /** `getAnalyses(userId)`: that user's analyses, newest first. */
  function GetAnalyses(analyses: seq<Analysis>, userId: int): (r: seq<Analysis>)
    ensures SortedDesc(r, (a: Analysis) => a.createdAt)
    ensures multiset(r) == multiset(Filter(analyses, (a: Analysis) => a.userId == userId))
    ensures forall a :: a in r <==> a in analyses && a.userId == userId
  {
    var mine := Filter(analyses, (a: Analysis) => a.userId == userId);
    var r := SortDesc(mine, (a: Analysis) => a.createdAt);
    assert forall a :: a in r <==> a in multiset(mine);
    r
  }
}
