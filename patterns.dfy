/**
 * The regular expressions of the resume parser that are modelled concretely:
 * the date test of the experience grammar, the LinkedIn and GitHub profile
 * searches of the contact scan, and the delimiter split of the skills section.
 */
module Patterns {
  import opened Wrappers
  import opened Text

  // ---------------------------------------------------------------------------
  // Date test of the experience grammar (app.py:133).

  /** The month abbreviations of the date test, matched case-sensitively. */
  const Months: seq<string> :=
    ["Jan", "Feb", "Mar", "Apr", "May", "Jun", "Jul", "Aug", "Sep", "Oct", "Nov", "Dec"]

  /** Four digits in a row start at index `i`. */
  predicate FourDigitsAt(s: string, i: nat) {
    i + 4 <= |s| && IsDigit(s[i]) && IsDigit(s[i + 1]) && IsDigit(s[i + 2]) && IsDigit(s[i + 3])
  }

  /** The date test succeeds: the line contains a month abbreviation or four
      digits in a row, anywhere. */
  predicate DateLike(s: string) {
    (exists k :: 0 <= k < |Months| && Contains(s, Months[k])) ||
    (exists i :: 0 <= i <= |s| - 4 && FourDigitsAt(s, i))
  }

  /** The date test searches the whole line: a date line stays one whatever
      text surrounds it. */
  lemma DateLikeInContext(before: string, s: string, after: string)
    requires DateLike(s)
    ensures DateLike(before + s + after)
  {
    var t := before + s + after;
    var d := |before|;
    if exists k :: 0 <= k < |Months| && Contains(s, Months[k]) {
      var k :| 0 <= k < |Months| && Contains(s, Months[k]);
      var m := Months[k];
      var i :| 0 <= i <= |s| - |m| && OccursAt(s, m, i);
      assert t[d + i..d + i + |m|] == s[i..i + |m|];
      assert OccursAt(t, m, d + i);
    } else {
      var i :| 0 <= i <= |s| - 4 && FourDigitsAt(s, i);
      assert t[d + i] == s[i] && t[d + i + 1] == s[i + 1] && t[d + i + 2] == s[i + 2] && t[d + i + 3] == s[i + 3];
      assert FourDigitsAt(t, d + i);
    }
  }

  /** The month names are matched with their capital letter: in a line
      without capital letters only four digits in a row make a date. */
  lemma DateLikeCaseSensitive(s: string)
    requires forall i :: 0 <= i < |s| ==> !('A' <= s[i] <= 'Z')
    ensures DateLike(s) <==> exists i :: 0 <= i <= |s| - 4 && FourDigitsAt(s, i)
  {
    forall k, i | 0 <= k < |Months| && 0 <= i <= |s| - |Months[k]|
      ensures !OccursAt(s, Months[k], i)
    {
      assert 'A' <= Months[k][0] <= 'Z';
    }
  }

  // ---------------------------------------------------------------------------
  // Profile links (app.py:54-55): a literal host and path prefix, matched
  // ignoring case, followed by one or more handle characters.

  const LinkedInPrefix: string := "linkedin.com/in/"
  const GitHubPrefix: string := "github.com/"

  /** `[\w-]` on ASCII: a letter, a digit, `_` or `-`. */
  predicate HandleChar(c: char) {
    IsLetter(c) || IsDigit(c) || c == '_' || c == '-'
  }

  /** The (lower-case) literal `prefix` occurs at index `i` ignoring case, and a
      handle character follows it: the pattern can match starting at `i`. */
  predicate ProfileAt(line: string, prefix: string, i: nat) {
    i + |prefix| < |line| && Lower(line[i..i + |prefix|]) == prefix && HandleChar(line[i + |prefix|])
  }

  /** The end of the longest run of handle characters that starts at `j`. */
  function HandleEnd(line: string, j: nat): (e: nat)
    requires j <= |line|
    decreases |line| - j
    ensures j <= e <= |line|
    ensures forall k :: j <= k < e ==> HandleChar(line[k])
    ensures e == |line| || !HandleChar(line[e])
  {
    if j < |line| && HandleChar(line[j]) then HandleEnd(line, j + 1) else j
  }

  /** The leftmost index at or after `from` where the profile pattern matches. */
  function FindProfile(line: string, prefix: string, from: nat): (r: Option<nat>)
    decreases |line| - from
    ensures r.Some? ==> from <= r.value && ProfileAt(line, prefix, r.value)
    ensures r.Some? ==> forall j :: from <= j < r.value ==> !ProfileAt(line, prefix, j)
    ensures r.None? ==> forall j :: from <= j ==> !ProfileAt(line, prefix, j)
  {
    if from + |prefix| >= |line| then None
    else if ProfileAt(line, prefix, from) then Some(from)
    else FindProfile(line, prefix, from + 1)
  }

  /** The text a search for a profile pattern returns: found
      exactly when the pattern can match somewhere; then it is the leftmost
      occurrence of the prefix (in the line's own case) followed by the longest
      run of handle characters. */
  function ProfileMatch(line: string, prefix: string): (r: Option<string>)
    ensures r.Some? <==> exists i :: 0 <= i < |line| && ProfileAt(line, prefix, i)
    ensures r.Some? ==> (exists i :: 0 <= i < |line| && ProfileAt(line, prefix, i) &&
                           (forall j :: 0 <= j < i ==> !ProfileAt(line, prefix, j)) &&
                           r.value == line[i..HandleEnd(line, i + |prefix|)])
    ensures r.Some? ==> |r.value| > |prefix| && Lower(r.value[..|prefix|]) == prefix
    ensures r.Some? ==> forall k :: |prefix| <= k < |r.value| ==> HandleChar(r.value[k])
  {
    match FindProfile(line, prefix, 0)
    case Some(i) =>
      var m := line[i..HandleEnd(line, i + |prefix|)];
      assert m[..|prefix|] == line[i..i + |prefix|];
      Some(m)
    case None => None
  }

  /** The stored profile field: `"https://" + match`. */
  function ProfileUrl(line: string, prefix: string): Option<string> {
    match ProfileMatch(line, prefix)
    case Some(m) => Some("https://" + m)
    case None => None
  }

  // ---------------------------------------------------------------------------
  // Skills split at a one-character delimiter class (app.py:173).

  /** The delimiter class at app.py:173 as the file's characters read it:
      comma, semicolon, line feed and the five characters U+00E2 U+20AC U+00A2
      U+00C2 U+00B7 (a bullet and a middle dot encoded as UTF-8 and read back
      as Windows-1252). The bullet U+2022 itself is not among them. */
  const SkillDelimiters: set<char> :=
    {',', ';', '\U{E2}', '\U{20AC}', '\U{A2}', '\U{C2}', '\U{B7}', '\n'}

  /** The delimiter characters of `s`, in order. */
  function DelimitersIn(s: string, delims: set<char>): seq<char> {
    if s == [] then []
    else (if s[0] in delims then [s[0]] else []) + DelimitersIn(s[1..], delims)
  }

  /** A regular-expression split on a one-character class: the pieces between the delimiters,
      one more piece than there are delimiters, none holding a delimiter. */
  function SplitOn(s: string, delims: set<char>): (r: seq<string>)
    ensures |r| == |DelimitersIn(s, delims)| + 1
    ensures forall i, k :: 0 <= i < |r| && 0 <= k < |r[i]| ==> r[i][k] !in delims
  {
    if s == [] then [[]]
    else
      var rest := SplitOn(s[1..], delims);
      if s[0] in delims then [[]] + rest
      else
        var first := [s[0]] + rest[0];
        assert forall k :: 1 <= k < |first| ==> first[k] == rest[0][k - 1];
        [first] + rest[1..]
  }

  /** Puts the pieces back together with the given separators between them. */
  function Rejoin(pieces: seq<string>, seps: seq<char>): string
    requires |pieces| == |seps| + 1
  {
    if seps == [] then pieces[0] else pieces[0] + [seps[0]] + Rejoin(pieces[1..], seps[1..])
  }

  /** Splitting loses nothing: the pieces with the delimiters put back between
      them give the original text. */
  lemma {:induction false} SplitRoundTrip(s: string, delims: set<char>)
    ensures Rejoin(SplitOn(s, delims), DelimitersIn(s, delims)) == s
  {
    if s != [] {
      var rest := SplitOn(s[1..], delims);
      var seps := DelimitersIn(s[1..], delims);
      SplitRoundTrip(s[1..], delims);
      if s[0] in delims {
        assert SplitOn(s, delims) == [[]] + rest;
        assert DelimitersIn(s, delims) == [s[0]] + seps;
        RejoinAfterDelimiter(s[0], rest, seps);
      } else {
        assert SplitOn(s, delims) == [[s[0]] + rest[0]] + rest[1..];
        assert DelimitersIn(s, delims) == seps by {
          assert [] + seps == seps;
        }
        RejoinExtendFirst(s[0], rest, seps);
      }
      assert Rejoin(SplitOn(s, delims), DelimitersIn(s, delims)) == [s[0]] + s[1..];
      assert [s[0]] + s[1..] == s;
    }
  }

  /** A leading delimiter adds an empty first piece. */
  lemma RejoinAfterDelimiter(c: char, pieces: seq<string>, seps: seq<char>)
    requires |pieces| == |seps| + 1
    ensures Rejoin([[]] + pieces, [c] + seps) == [c] + Rejoin(pieces, seps)
  {
    assert ([[]] + pieces)[1..] == pieces;
    assert ([c] + seps)[1..] == seps;
  }

  /** A leading ordinary character joins the first piece. */
  lemma RejoinExtendFirst(c: char, pieces: seq<string>, seps: seq<char>)
    requires |pieces| == |seps| + 1
    ensures Rejoin([[c] + pieces[0]] + pieces[1..], seps) == [c] + Rejoin(pieces, seps)
  {
    var r := [[c] + pieces[0]] + pieces[1..];
    if seps != [] {
      assert r[1..] == pieces[1..];
      var tail := Rejoin(pieces[1..], seps[1..]);
      assert [c] + pieces[0] + [seps[0]] + tail == [c] + (pieces[0] + [seps[0]] + tail);
    }
  }
}
