/** String helpers shared by the services and pages: ASCII lower-casing,
    plain substring containment, JavaScript's `trim`, decimal rendering of
    integers, `split(sep).pop()` and `parseInt`. Strings are `seq<char>`;
    only the ASCII range is given its JavaScript meaning. */
module Text {

  import opened Wrappers

  // ---------------------------------------------------------------------
  // Case
  // ---------------------------------------------------------------------

  predicate IsUpper(c: char) { 'A' <= c <= 'Z' }

  /** `toLowerCase` of one character, on the ASCII range. */
  function LowerChar(c: char): (r: char)
    ensures IsUpper(c) ==> r as int == c as int + 32
    ensures !IsUpper(c) ==> r == c
    ensures !IsUpper(r)
  {
    if IsUpper(c) then (c as int + 32) as char else c
  }

  /** `String.prototype.toLowerCase`, character by character. */
  function Lower(s: string): (r: string)
    ensures |r| == |s|
    ensures forall i :: 0 <= i < |s| ==> r[i] == LowerChar(s[i])
  {
    if s == [] then [] else [LowerChar(s[0])] + Lower(s[1..])
  }

  predicate IsLowerCase(s: string) {
    forall i :: 0 <= i < |s| ==> !IsUpper(s[i])
  }

  lemma LowerIsLowerCase(s: string)
    ensures IsLowerCase(Lower(s))
  {
  }

  /** Lower-casing twice is lower-casing once. */
  lemma {:induction false} LowerIdempotent(s: string)
    ensures Lower(Lower(s)) == Lower(s)
  {
    if s != [] {
      LowerIdempotent(s[1..]);
      assert Lower(s)[1..] == Lower(s[1..]);
    }
  }

  /** A string without upper-case letters is its own lower-case form. */
  lemma {:induction false} LowerOfLowerCase(s: string)
    requires IsLowerCase(s)
    ensures Lower(s) == s
  {
    if s != [] {
      LowerOfLowerCase(s[1..]);
    }
  }

  // ---------------------------------------------------------------------
  // Substring containment (`String.prototype.includes`)
  // ---------------------------------------------------------------------

  /** `s.includes(w)`: `w` occurs in `s` at some position. */
  predicate Contains(s: string, w: string)
    decreases |s|
  {
    w <= s || (s != [] && Contains(s[1..], w))
  }

  /** `w` occurs in `s` starting at index `i`. */
  predicate OccursAt(s: string, w: string, i: int) {
    0 <= i && i + |w| <= |s| && s[i..i + |w|] == w
  }

  lemma {:induction false} ContainsWitness(s: string, w: string)
    requires Contains(s, w)
    ensures exists i :: OccursAt(s, w, i)
    decreases |s|
  {
    if w <= s {
      assert OccursAt(s, w, 0);
    } else {
      ContainsWitness(s[1..], w);
      var i :| OccursAt(s[1..], w, i);
      TailSlice(s, i, |w|);
      assert OccursAt(s, w, i + 1);
    }
  }

  /** A slice of `s[1..]` is the slice of `s` one position further on. */
  lemma TailSlice(s: string, i: nat, n: nat)
    requires i + n < |s|
    ensures s[1..][i..i + n] == s[i + 1..i + 1 + n]
  {
    var u, v := s[1..][i..i + n], s[i + 1..i + 1 + n];
    assert forall k :: 0 <= k < n ==> u[k] == v[k];
  }

  lemma {:induction false} OccursContains(s: string, w: string, i: int)
    requires OccursAt(s, w, i)
    ensures Contains(s, w)
    decreases i
  {
    if i == 0 {
      assert s[..|w|] == w;
    } else {
      TailSlice(s, i - 1, |w|);
      OccursContains(s[1..], w, i - 1);
    }
  }

  /** The recursive definition agrees with "there is a position". */
  lemma ContainsIff(s: string, w: string)
    ensures Contains(s, w) <==> exists i :: OccursAt(s, w, i)
  {
    if Contains(s, w) {
      ContainsWitness(s, w);
    }
    if i :| OccursAt(s, w, i) {
      OccursContains(s, w, i);
    }
  }

  lemma ContainsAt(s: string, w: string, i: int)
    requires OccursAt(s, w, i)
    ensures Contains(s, w)
  {
    OccursContains(s, w, i);
  }

  /** Every string contains the empty string. */
  lemma ContainsEmpty(s: string)
    ensures Contains(s, "")
  {
    assert OccursAt(s, "", 0);
    OccursContains(s, "", 0);
  }

  /** Containment is transitive: an occurrence of an occurrence is one. */
  lemma ContainsTransitive(s: string, w: string, v: string)
    requires Contains(s, w) && Contains(w, v)
    ensures Contains(s, v)
  {
    ContainsWitness(s, w);
    ContainsWitness(w, v);
    var i :| OccursAt(s, w, i);
    var j :| OccursAt(w, v, j);
    assert forall k :: 0 <= k < |w| ==> w[k] == s[i + k];
    assert s[i + j..i + j + |v|] == w[j..j + |v|];
    OccursContains(s, v, i + j);
  }

  // ---------------------------------------------------------------------
  // Whitespace and `trim`
  // ---------------------------------------------------------------------

  /** The ASCII members of JavaScript's WhiteSpace and LineTerminator sets. */
  predicate IsSpace(c: char) {
    c == ' ' || c == '\t' || c == '\n' || c == '\r' || c == '\U{000B}' || c == '\U{000C}'
  }

  predicate IsBlank(s: string) {
    forall i :: 0 <= i < |s| ==> IsSpace(s[i])
  }

  /** Number of leading whitespace characters. */
  function LeadingSpace(s: string): (k: nat)
    ensures k <= |s|
    ensures forall i :: 0 <= i < k ==> IsSpace(s[i])
    ensures k < |s| ==> !IsSpace(s[k])
  {
    if s == [] || !IsSpace(s[0]) then 0 else 1 + LeadingSpace(s[1..])
  }

  /** Number of trailing whitespace characters. */
  function TrailingSpace(s: string): (k: nat)
    ensures k <= |s|
    ensures forall i :: |s| - k <= i < |s| ==> IsSpace(s[i])
    ensures k < |s| ==> !IsSpace(s[|s| - 1 - k])
  {
    if s == [] || !IsSpace(s[|s| - 1]) then 0 else 1 + TrailingSpace(s[..|s| - 1])
  }

  /** Where `trim` starts and ends: `s[..a]` and `s[b..]` are whitespace,
      and `s[a..b]` neither starts nor ends with it. */
  function TrimBounds(s: string): (ab: (nat, nat))
    ensures ab.0 <= ab.1 <= |s|
    ensures forall i :: 0 <= i < ab.0 ==> IsSpace(s[i])
    ensures forall i :: ab.1 <= i < |s| ==> IsSpace(s[i])
    ensures ab.0 < ab.1 ==> !IsSpace(s[ab.0]) && !IsSpace(s[ab.1 - 1])
  {
    var a := LeadingSpace(s);
    var k := TrailingSpace(s[a..]);
    TrailingOfSuffix(s, a, k);
    (a, |s| - k)
  }

  /** Trailing whitespace counted on the suffix `s[a..]` is trailing
      whitespace of `s`. */
  lemma TrailingOfSuffix(s: string, a: nat, k: nat)
    requires a <= |s| && k <= |s| - a
    requires forall i :: |s[a..]| - k <= i < |s[a..]| ==> IsSpace(s[a..][i])
    requires k < |s| - a ==> !IsSpace(s[a..][|s| - a - 1 - k])
    ensures forall i :: |s| - k <= i < |s| ==> IsSpace(s[i])
    ensures k < |s| - a ==> !IsSpace(s[|s| - 1 - k])
  {
    var t := s[a..];
    forall i | |s| - k <= i < |s| ensures IsSpace(s[i]) {
      assert s[i] == t[i - a];
    }
    if k < |s| - a {
      assert s[|s| - 1 - k] == t[|t| - 1 - k];
    }
  }

  /** `String.prototype.trim`: whitespace removed from both ends. */
  function Trim(s: string): (r: string)
    ensures r == s[TrimBounds(s).0..TrimBounds(s).1]
    ensures r != [] ==> !IsSpace(r[0]) && !IsSpace(r[|r| - 1])
    ensures r == [] <==> IsBlank(s)
  {
    var (a, b) := TrimBounds(s);
    assert a == b ==> IsBlank(s);
    assert a < b ==> !IsSpace(s[a]);
    s[a..b]
  }

  /** Trimming a trimmed string changes nothing. */
  lemma TrimIdempotent(s: string)
    ensures Trim(Trim(s)) == Trim(s)
  {
    var t := Trim(s);
    if t != [] {
      assert LeadingSpace(t) == 0;
      assert TrailingSpace(t) == 0;
    }
  }

  // ---------------------------------------------------------------------
  // Decimal rendering of integers (template literals `${n}`)
  // ---------------------------------------------------------------------

  predicate IsDigit(c: char) { '0' <= c <= '9' }

  function DigitValue(c: char): (d: nat)
    requires IsDigit(c)
    ensures d < 10
  {
    c as int - '0' as int
  }

  function DigitChar(d: nat): (c: char)
    requires d < 10
    ensures IsDigit(c) && DigitValue(c) == d
  {
    ('0' as int + d) as char
  }

  /** Decimal digits of `n`, most significant first, without leading zeros. */
  function NatToString(n: nat): (r: string)
    decreases n
  {
    if n < 10 then [DigitChar(n)] else NatToString(n / 10) + [DigitChar(n % 10)]
  }

  predicate AllDigits(s: string) {
    forall i :: 0 <= i < |s| ==> IsDigit(s[i])
  }

  lemma {:induction false} NatToStringDigits(n: nat)
    ensures NatToString(n) != [] && AllDigits(NatToString(n))
    decreases n
  {
    if n >= 10 {
      NatToStringDigits(n / 10);
    }
  }

  /** `${i}` for an integer `i`. */
  function IntToString(i: int): string {
    if i < 0 then "-" + NatToString(-i) else NatToString(i)
  }

  // ---------------------------------------------------------------------
  // `s.split(sep).pop()`
  // ---------------------------------------------------------------------

  /** The text after the last `sep` in `s`, or all of `s` when `sep` is absent. */
  function LastSegment(s: string, sep: char): (r: string)
    ensures sep !in r
    ensures |r| <= |s| && r == s[|s| - |r|..]
    ensures |r| < |s| ==> s[|s| - |r| - 1] == sep
    decreases |s|
  {
    if s == [] then []
    else if s[|s| - 1] == sep then []
    else
      var q := LastSegment(s[..|s| - 1], sep);
      SegmentExtends(s, sep, q);
      q + [s[|s| - 1]]
  }

  /** Appending the last character of `s`, when it is not `sep`, to the
      text after the last `sep` of the rest of `s` gives the text after the
      last `sep` of `s`. */
  lemma SegmentExtends(s: string, sep: char, q: string)
    requires s != [] && s[|s| - 1] != sep
    requires sep !in q && |q| <= |s| - 1 && q == s[..|s| - 1][|s| - 1 - |q|..]
    requires |q| < |s| - 1 ==> s[..|s| - 1][|s| - 1 - |q| - 1] == sep
    ensures var r := q + [s[|s| - 1]];
      && sep !in r && |r| <= |s| && r == s[|s| - |r|..]
      && (|r| < |s| ==> s[|s| - |r| - 1] == sep)
  {
    var p := s[..|s| - 1];
    assert s == p + [s[|s| - 1]];
    assert s[|s| - |q| - 1..] == p[|p| - |q|..] + [s[|s| - 1]];
    assert |q| < |p| ==> s[|s| - |q| - 2] == p[|p| - |q| - 1];
  }

  lemma {:induction false} LastSegmentAfter(p: string, sep: char, q: string)
    requires sep !in q
    ensures LastSegment(p + [sep] + q, sep) == q
    decreases |q|
  {
    if q != [] {
      var s := p + [sep] + q;
      assert s[..|s| - 1] == p + [sep] + q[..|q| - 1];
      LastSegmentAfter(p, sep, q[..|q| - 1]);
      assert q == q[..|q| - 1] + [q[|q| - 1]];
    } else {
      assert (p + [sep] + q)[|p|] == sep;
    }
  }

  // ---------------------------------------------------------------------
  // `parseInt(s)` (no radix argument)
  // ---------------------------------------------------------------------

  predicate IsHexDigit(c: char) {
    IsDigit(c) || 'a' <= c <= 'f' || 'A' <= c <= 'F'
  }

  function HexValue(c: char): (d: nat)
    requires IsHexDigit(c)
    ensures d < 16
  {
    if IsDigit(c) then DigitValue(c)
    else if 'a' <= c <= 'f' then c as int - 'a' as int + 10
    else c as int - 'A' as int + 10
  }

  /** Length of the longest prefix of `s` made of digits of `radix`. */
  function DigitRun(s: string, radix: nat): (k: nat)
    requires radix == 10 || radix == 16
    ensures k <= |s|
    ensures forall i :: 0 <= i < k ==> IsHexDigit(s[i])
  {
    if s == [] then 0
    else if (radix == 10 && IsDigit(s[0])) || (radix == 16 && IsHexDigit(s[0])) then 1 + DigitRun(s[1..], radix)
    else 0
  }

  /** Value of a string of digits in `radix`, most significant first. */
  function DigitsValue(s: string, radix: nat): nat
    requires radix == 10 || radix == 16
    requires forall i :: 0 <= i < |s| ==> IsHexDigit(s[i])
  {
    if s == [] then 0
    else DigitsValue(s[..|s| - 1], radix) * radix + HexValue(s[|s| - 1])
  }

  /** The value of the longest run of `radix` digits at the start of `s`,
      or `None` (JavaScript's `NaN`) when there is none. */
  function ParseDigits(s: string, radix: nat): Option<int>
    requires radix == 10 || radix == 16
  {
    var k := DigitRun(s, radix);
    if k == 0 then None else Some(DigitsValue(s[..k], radix))
  }

  /** `parseInt(s)`: skip leading whitespace, read an optional sign, read a
      `0x`/`0X` prefix as radix 16, then the longest digit run. */
  function ParseInt(s: string): (r: Option<int>)
  {
    var t := s[LeadingSpace(s)..];
    var sign := if t != [] && t[0] == '-' then -1 else 1;
    var u := if t != [] && (t[0] == '-' || t[0] == '+') then t[1..] else t;
    var v :=
      if |u| >= 2 && u[0] == '0' && (u[1] == 'x' || u[1] == 'X') then ParseDigits(u[2..], 16)
      else ParseDigits(u, 10);
    match v
    case None => None
    case Some(n) => Some(sign * n)
  }

  lemma {:induction false} DigitRunAll(s: string)
    requires AllDigits(s)
    ensures DigitRun(s, 10) == |s|
  {
    if s != [] {
      DigitRunAll(s[1..]);
    }
  }

  lemma {:induction false} NatToStringValue(n: nat)
    ensures AllDigits(NatToString(n))
    ensures DigitsValue(NatToString(n), 10) == n
    decreases n
  {
    NatToStringDigits(n);
    if n >= 10 {
      NatToStringValue(n / 10);
      var s := NatToString(n);
      assert s[..|s| - 1] == NatToString(n / 10);
    }
  }

  /** `parseInt` reads back what `${n}` wrote, for every non-negative `n`. */
  lemma ParseIntOfNatToString(n: nat)
    ensures ParseInt(NatToString(n)) == Some(n)
  {
    var s := NatToString(n);
    NatToStringValue(n);
    DigitRunAll(s);
    assert LeadingSpace(s) == 0;
    assert s[0..] == s;
    if |s| >= 2 {
      assert s[0] == '0' ==> n < 10 by {
        if n >= 10 {
          NatToStringLeading(n);
        }
      }
    }
    assert s[..|s|] == s;
  }

  /** The first digit of a number of two or more digits is not `0`. */
  lemma {:induction false} NatToStringLeading(n: nat)
    requires n >= 10
    ensures NatToString(n)[0] != '0'
    decreases n
  {
    if n / 10 >= 10 {
      NatToStringLeading(n / 10);
    }
  }
}
