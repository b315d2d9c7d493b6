/**
 String helpers with the JavaScript meanings the components rely on:
 `String.prototype.trim`, ASCII `toLowerCase`, and truthiness of an optional string.
 */
module Text {
  import opened Wrappers

  /** The code points `trim` removes: ECMAScript WhiteSpace and LineTerminator. */
  const SpaceChars: seq<char> := [
    '\t', '\n', '\U{B}', '\U{C}', '\r', ' ', '\U{A0}', '\U{1680}',
    '\U{2000}', '\U{2001}', '\U{2002}', '\U{2003}', '\U{2004}', '\U{2005}',
    '\U{2006}', '\U{2007}', '\U{2008}', '\U{2009}', '\U{200A}',
    '\U{2028}', '\U{2029}', '\U{202F}', '\U{205F}', '\U{3000}', '\U{FEFF}'
  ]

  /** Membership in a character list, one element at a time. */
  predicate Contains(xs: seq<char>, c: char) {
    xs != [] && (xs[0] == c || Contains(xs[1..], c))
  }

  predicate IsSpace(c: char) {
    Contains(SpaceChars, c)
  }

  /** The code points from 'A' to 'z': the ASCII letters and the six punctuation marks between 'Z' and 'a'. */
  predicate InRangeUpperAToLowerZ(c: char) {
    'A' <= c <= 'z'
  }

  lemma {:induction false} ContainsNoneInRange(xs: seq<char>, c: char)
    requires forall i :: 0 <= i < |xs| ==> !InRangeUpperAToLowerZ(xs[i])
    requires InRangeUpperAToLowerZ(c)
    ensures !Contains(xs, c)
  {
    if xs != [] {
      ContainsNoneInRange(xs[1..], c);
    }
  }

  /** No character between 'A' and 'z' is whitespace. */
  lemma LetterIsNotSpace(c: char)
    requires InRangeUpperAToLowerZ(c)
    ensures !IsSpace(c)
  {
    ContainsNoneInRange(SpaceChars, c);
  }

  predicate AllSpace(s: string) {
    forall i :: 0 <= i < |s| ==> IsSpace(s[i])
  }

  /** Neither the first nor the last character is whitespace. */
  predicate NoOuterSpace(s: string) {
    s == [] || (!IsSpace(s[0]) && !IsSpace(s[|s| - 1]))
  }

  /** A string is truthy in JavaScript exactly when it is present and non-empty. */
  predicate Truthy(o: Option<string>) {
    o.Some? && o.value != ""
  }

  lemma AllSpaceAppend(a: string, b: string)
    requires AllSpace(a) && AllSpace(b)
    ensures AllSpace(a + b)
  {
    forall i | 0 <= i < |a + b| ensures IsSpace((a + b)[i]) {
      if i < |a| { assert (a + b)[i] == a[i]; } else { assert (a + b)[i] == b[i - |a|]; }
    }
  }

  /** The first index at or after `i` that does not hold whitespace, or the length. */
  function SkipLeading(s: string, i: nat): (j: nat)
    requires i <= |s|
    ensures i <= j <= |s|
    ensures forall k :: i <= k < j ==> IsSpace(s[k])
    ensures j == |s| || !IsSpace(s[j])
    decreases |s| - i
  {
    if i < |s| && IsSpace(s[i]) then SkipLeading(s, i + 1) else i
  }

  /** The index after the last non-whitespace character before `j`, or 0. */
  function SkipTrailing(s: string, j: nat): (i: nat)
    requires j <= |s|
    ensures i <= j
    ensures forall k :: i <= k < j ==> IsSpace(s[k])
    ensures i == 0 || !IsSpace(s[i - 1])
  {
    if j > 0 && IsSpace(s[j - 1]) then SkipTrailing(s, j - 1) else j
  }

  /** Removes leading whitespace. */
  function TrimStart(s: string): (r: string)
    ensures |r| <= |s| && r == s[|s| - |r|..]
    ensures AllSpace(s[..|s| - |r|])
    ensures r == [] || !IsSpace(r[0])
  {
    var j := SkipLeading(s, 0);
    assert forall k :: 0 <= k < j ==> s[..j][k] == s[k];
    s[j..]
  }

  /** Removes trailing whitespace. */
  function TrimEnd(s: string): (r: string)
    ensures |r| <= |s| && r == s[..|r|]
    ensures AllSpace(s[|r|..])
    ensures r == [] || !IsSpace(r[|r| - 1])
  {
    var i := SkipTrailing(s, |s|);
    assert forall k :: 0 <= k < |s| - i ==> s[i..][k] == s[i + k];
    s[..i]
  }

  /** `String.prototype.trim`: the string without its surrounding whitespace. */
  function Trim(s: string): (r: string)
    ensures |r| <= |s|
    ensures NoOuterSpace(r)
    ensures r == [] <==> AllSpace(s)
  {
    var t := TrimStart(s);
    var r := TrimEnd(t);
    AllSpaceSplit(s, |s| - |t|);
    assert r != [] ==> r[0] == t[0];
    r
  }

  lemma AllSpaceSplit(s: string, k: int)
    requires 0 <= k <= |s|
    ensures AllSpace(s) <==> AllSpace(s[..k]) && AllSpace(s[k..])
  {
    if AllSpace(s[..k]) && AllSpace(s[k..]) {
      forall i | 0 <= i < |s| ensures IsSpace(s[i]) {
        if i < k { assert s[i] == s[..k][i]; } else { assert s[i] == s[k..][i - k]; }
      }
    }
  }

  lemma {:induction false} SkipLeadingOfSpaces(a: string, t: string, i: nat)
    requires i <= |a| && AllSpace(a)
    requires t == [] || !IsSpace(t[0])
    ensures SkipLeading(a + t, i) == |a|
    decreases |a| - i
  {
    if i < |a| {
      assert (a + t)[i] == a[i];
      SkipLeadingOfSpaces(a, t, i + 1);
    } else if t != [] {
      assert (a + t)[|a|] == t[0];
    }
  }

  lemma TrimStartOfSpaces(a: string, t: string)
    requires AllSpace(a)
    requires t == [] || !IsSpace(t[0])
    ensures TrimStart(a + t) == t
  {
    SkipLeadingOfSpaces(a, t, 0);
    assert (a + t)[|a|..] == t;
  }

  lemma {:induction false} SkipTrailingOfSpaces(t: string, b: string, j: nat)
    requires |t| <= j <= |t + b| && AllSpace(b)
    requires t == [] || !IsSpace(t[|t| - 1])
    ensures SkipTrailing(t + b, j) == |t|
    decreases j
  {
    if j > |t| {
      assert (t + b)[j - 1] == b[j - 1 - |t|];
      SkipTrailingOfSpaces(t, b, j - 1);
    } else if t != [] {
      assert (t + b)[|t| - 1] == t[|t| - 1];
    }
  }

  lemma TrimEndOfSpaces(t: string, b: string)
    requires AllSpace(b)
    requires t == [] || !IsSpace(t[|t| - 1])
    ensures TrimEnd(t + b) == t
  {
    SkipTrailingOfSpaces(t, b, |t + b|);
    assert (t + b)[..|t|] == t;
  }

  /** Trim removes exactly the surrounding whitespace: whatever core is wrapped in whitespace comes back. */
  lemma TrimExact(a: string, m: string, b: string)
    requires AllSpace(a) && AllSpace(b) && NoOuterSpace(m)
    ensures Trim(a + m + b) == m
  {
    if m == [] {
      assert a + m + b == a + b;
      AllSpaceAppend(a, b);
    } else {
      assert a + m + b == a + (m + b);
      TrimStartOfSpaces(a, m + b);
      TrimEndOfSpaces(m, b);
    }
  }

  /** Trimming twice is trimming once. */
  lemma TrimIdempotent(s: string)
    ensures Trim(Trim(s)) == Trim(s)
  {
    TrimOfTrimmed(Trim(s));
  }

  /** A string without outer whitespace is its own trim. */
  lemma TrimOfTrimmed(m: string)
    requires NoOuterSpace(m)
    ensures Trim(m) == m
  {
    var e: string := [];
    assert e + m + e == m;
    TrimExact(e, m, e);
  }

  /** ASCII `toLowerCase` of one character. */
  function LowerChar(c: char): char {
    if 'A' <= c <= 'Z' then (c as int - 'A' as int + 'a' as int) as char else c
  }

  /** ASCII `toLowerCase` of a string. */
  function Lower(s: string): (r: string)
    ensures |r| == |s|
    ensures forall i :: 0 <= i < |s| ==> r[i] == LowerChar(s[i])
  {
    if s == [] then [] else [LowerChar(s[0])] + Lower(s[1..])
  }

  /** `a` and `b` are the same character, or the upper- and lower-case forms of one ASCII letter. */
  predicate SameLetterIgnoringCase(a: char, b: char) {
    || a == b
    || ('A' <= a <= 'Z' && b as int == a as int + 32)
    || ('A' <= b <= 'Z' && a as int == b as int + 32)
  }

  /** Two strings that differ at most in the letter case of each position. */
  predicate CaseVariants(a: string, b: string) {
    |a| == |b| && forall i :: 0 <= i < |a| ==> SameLetterIgnoringCase(a[i], b[i])
  }

  lemma SameLetterIffSameLower(a: char, b: char)
    ensures SameLetterIgnoringCase(a, b) <==> LowerChar(a) == LowerChar(b)
  {
  }

  /** Case variants are exactly the strings with equal lowercase forms. */
  lemma CaseVariantsIffSameLower(a: string, b: string)
    ensures CaseVariants(a, b) <==> Lower(a) == Lower(b)
  {
    if Lower(a) == Lower(b) {
      forall i | 0 <= i < |a| ensures SameLetterIgnoringCase(a[i], b[i]) {
        assert Lower(a)[i] == Lower(b)[i];
        SameLetterIffSameLower(a[i], b[i]);
      }
    }
    if CaseVariants(a, b) {
      forall i | 0 <= i < |a| ensures Lower(a)[i] == Lower(b)[i] {
        SameLetterIffSameLower(a[i], b[i]);
      }
    }
  }

  /** Lowercasing neither creates nor removes whitespace. */
  lemma LowerChangesNoSpace(c: char)
    ensures IsSpace(LowerChar(c)) <==> IsSpace(c)
  {
    if 'A' <= c <= 'Z' {
      LetterIsNotSpace(c);
      LetterIsNotSpace(LowerChar(c));
    }
  }

  lemma LowerConcat(a: string, b: string)
    ensures Lower(a + b) == Lower(a) + Lower(b)
  {
  }

  lemma LowerKeepsAllSpace(s: string)
    requires AllSpace(s)
    ensures AllSpace(Lower(s))
  {
    forall k | 0 <= k < |s| ensures IsSpace(Lower(s)[k]) {
      LowerChangesNoSpace(s[k]);
    }
  }

  lemma LowerKeepsNoOuterSpace(s: string)
    requires NoOuterSpace(s)
    ensures NoOuterSpace(Lower(s))
  {
    if s != [] {
      LowerChangesNoSpace(s[0]);
      LowerChangesNoSpace(s[|s| - 1]);
    }
  }

  /** Splits a string into its leading whitespace, its trimmed core and its trailing whitespace. */
  lemma TrimSplit(s: string) returns (a: string, b: string)
    ensures s == a + Trim(s) + b
    ensures AllSpace(a) && AllSpace(b)
  {
    var t := TrimStart(s);
    var m := TrimEnd(t);
    assert Trim(s) == m;
    var k := |s| - |t|;
    a, b := s[..k], t[|m|..];
    assert AllSpace(a);
    assert AllSpace(b);
    SplitAt(t, |m|);
    SplitAt(s, k);
    Associative(a, m, b);
  }

  lemma SplitAt(s: string, k: int)
    requires 0 <= k <= |s|
    ensures s == s[..k] + s[k..]
  {
  }

  lemma Associative(a: string, m: string, b: string)
    ensures a + (m + b) == a + m + b
  {
  }

  /** Trimming and lowercasing commute. */
  lemma {:induction false} TrimLowerCommute(s: string)
    ensures Lower(Trim(s)) == Trim(Lower(s))
  {
    var a, b := TrimSplit(s);
    var m := Trim(s);
    LowerConcat(a, m);
    LowerConcat(a + m, b);
    LowerKeepsAllSpace(a);
    LowerKeepsAllSpace(b);
    LowerKeepsNoOuterSpace(m);
    TrimExact(Lower(a), Lower(m), Lower(b));
  }

  /** ASCII upper case of one character. */
  function UpperChar(c: char): char {
    if 'a' <= c <= 'z' then (c as int - 'a' as int + 'A' as int) as char else c
  }

  /** `s.charAt(0).toUpperCase() + s.slice(1)`, over ASCII. */
  function Capitalize(s: string): string
  {
    if s == [] then [] else [UpperChar(s[0])] + s[1..]
  }
}
