/**
 * The string primitives the resume parser relies on (Python's `str.strip`,
 * `str.lower`, `str.isdigit`, the `in` substring test and list slicing),
 * restricted to ASCII letters, digits and whitespace.
 */
module Text {

  /** `str.isspace()` on ASCII: space, tab, line feed, vertical tab, form feed,
      carriage return and the four separators 0x1C..0x1F. */
  predicate IsSpace(c: char) {
    c == ' ' || ('\t' <= c <= '\r') || ('\U{1C}' <= c <= '\U{1F}')
  }

  /** `str.isdigit()` and the regex class `\d`, on ASCII. */
  predicate IsDigit(c: char) {
    '0' <= c <= '9'
  }

  predicate IsLetter(c: char) {
    'A' <= c <= 'Z' || 'a' <= c <= 'z'
  }

  /** Some character of `s` is a digit. */
  predicate HasDigit(s: string) {
    exists i :: 0 <= i < |s| && IsDigit(s[i])
  }

  /** Python's `part in text` on strings: `part` occurs as a contiguous substring. */
  predicate Contains(text: string, part: string) {
    exists i :: 0 <= i <= |text| - |part| && OccursAt(text, part, i)
  }

  /** `part` occurs in `text` starting at index `i`. */
  predicate OccursAt(text: string, part: string, i: nat) {
    i + |part| <= |text| && text[i..i + |part|] == part
  }

  predicate IsBlank(s: string) {
    forall i :: 0 <= i < |s| ==> IsSpace(s[i])
  }

  function LowerChar(c: char): char {
    if 'A' <= c <= 'Z' then (c as int + 32) as char else c
  }

  /** `str.lower()` on ASCII letters; every other character is kept. */
  function Lower(s: string): string {
    seq(|s|, i requires 0 <= i < |s| => LowerChar(s[i]))
  }

  /** `str.strip()`: the text between the leading and the trailing whitespace.
      The result is empty exactly when the input is blank, and otherwise starts
      and ends with a non-space character. */
  function Strip(s: string): (r: string)
    decreases |s|
    ensures r == [] <==> IsBlank(s)
    ensures r != [] ==> !IsSpace(r[0]) && !IsSpace(r[|r| - 1])
    ensures |r| <= |s|
  {
    if s == [] then []
    else if IsSpace(s[0]) then
      assert forall i :: 1 <= i < |s| ==> s[i] == s[1..][i - 1];
      Strip(s[1..])
    else if IsSpace(s[|s| - 1]) then
      assert forall i :: 0 <= i < |s| - 1 ==> s[i] == s[..|s| - 1][i];
      Strip(s[..|s| - 1])
    else s
  }

  /** What `str.strip()` means: the result is the slice of the input between a
      blank prefix and a blank suffix. With the contract of `Strip`, which
      makes the result start and end with a non-space character, this fixes
      the result: only the whitespace around the text is removed. */
  lemma {:induction false} StripBounds(s: string) returns (a: nat, b: nat)
    decreases |s|
    ensures a <= b <= |s| && Strip(s) == s[a..b]
    ensures IsBlank(s[..a]) && IsBlank(s[b..])
  {
    if s == [] {
      a, b := 0, 0;
    } else if IsSpace(s[0]) {
      var a', b' := StripBounds(s[1..]);
      assert Strip(s) == Strip(s[1..]);
      BlankFront(s, a', b');
      a, b := a' + 1, b' + 1;
    } else if IsSpace(s[|s| - 1]) {
      a, b := StripBounds(s[..|s| - 1]);
      assert Strip(s) == Strip(s[..|s| - 1]);
      BlankBack(s, a, b);
    } else {
      a, b := 0, |s|;
    }
  }

  /** Bounds in `s[1..]` shifted to bounds in `s`, whose first character is a space. */
  lemma BlankFront(s: string, a: nat, b: nat)
    requires s != [] && IsSpace(s[0]) && a <= b <= |s| - 1
    requires IsBlank(s[1..][..a]) && IsBlank(s[1..][b..])
    ensures s[1..][a..b] == s[a + 1..b + 1]
    ensures IsBlank(s[..a + 1]) && IsBlank(s[b + 1..])
  {
    var tail := s[1..];
    forall k | 0 < k < a + 1 ensures IsSpace(s[k]) {
      assert tail[..a][k - 1] == s[k];
    }
    forall k | b + 1 <= k < |s| ensures IsSpace(s[k]) {
      assert tail[b..][k - b - 1] == s[k];
    }
  }

  /** Bounds in `s[..|s| - 1]` as bounds in `s`, whose last character is a space. */
  lemma BlankBack(s: string, a: nat, b: nat)
    requires s != [] && IsSpace(s[|s| - 1]) && a <= b <= |s| - 1
    requires IsBlank(s[..|s| - 1][..a]) && IsBlank(s[..|s| - 1][b..])
    ensures s[..|s| - 1][a..b] == s[a..b]
    ensures IsBlank(s[..a]) && IsBlank(s[b..])
  {
    var init := s[..|s| - 1];
    assert s[..a] == init[..a];
    forall k | b <= k < |s| ensures IsSpace(s[k]) {
      if k < |s| - 1 {
        assert init[b..][k - b] == s[k];
      }
    }
  }

  lemma AppendAssoc<T>(a: seq<T>, b: seq<T>, c: seq<T>)
    ensures a + b + c == a + (b + c)
  {
  }

  lemma EmptyAppend<T>(a: seq<T>)
    ensures [] + a == a
  {
  }

  /** Stripping removes only whitespace: a non-space character occurs in the
      stripped text exactly when it occurs in the raw text. */
  lemma {:induction false} StripKeeps(s: string, c: char)
    requires !IsSpace(c)
    decreases |s|
    ensures c in Strip(s) <==> c in s
  {
    if s != [] && IsSpace(s[0]) {
      StripKeeps(s[1..], c);
      assert s == [s[0]] + s[1..];
    } else if s != [] && IsSpace(s[|s| - 1]) {
      StripKeeps(s[..|s| - 1], c);
      assert s == s[..|s| - 1] + [s[|s| - 1]];
    }
  }

  /** Every character of the stripped text comes from the raw text. */
  lemma {:induction false} StripWithin(s: string, c: char)
    requires c in Strip(s)
    decreases |s|
    ensures c in s
  {
    if s != [] && IsSpace(s[0]) {
      StripWithin(s[1..], c);
      assert s == [s[0]] + s[1..];
    } else if s != [] && IsSpace(s[|s| - 1]) {
      StripWithin(s[..|s| - 1], c);
      assert s == s[..|s| - 1] + [s[|s| - 1]];
    }
  }

  /** Stripping removes only whitespace, so a stripped line has a digit exactly
      when the raw line has one. */
  lemma StripKeepsDigits(s: string)
    ensures HasDigit(Strip(s)) <==> HasDigit(s)
  {
    if HasDigit(s) {
      var k :| 0 <= k < |s| && IsDigit(s[k]);
      StripKeeps(s, s[k]);
      var j :| 0 <= j < |Strip(s)| && Strip(s)[j] == s[k];
    }
    if HasDigit(Strip(s)) {
      var k :| 0 <= k < |Strip(s)| && IsDigit(Strip(s)[k]);
      StripKeeps(s, Strip(s)[k]);
      var j :| 0 <= j < |s| && s[j] == Strip(s)[k];
    }
  }

  /** Python's slice `s[lo:hi]` for non-negative bounds: both are clamped to the length. */
  function Slice<T>(s: seq<T>, lo: nat, hi: nat): (r: seq<T>)
    ensures |r| == if lo <= hi && lo <= |s| then (if hi <= |s| then hi else |s|) - lo else 0
    ensures forall k :: 0 <= k < |r| ==> r[k] == s[lo + k]
  {
    var h := if hi <= |s| then hi else |s|;
    if lo <= h then s[lo..h] else []
  }
}
