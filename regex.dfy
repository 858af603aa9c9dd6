/**
 * The email and phone regular expressions of the contact scan, written as
 * patterns over a small fragment of Python's regex syntax, with the language
 * each pattern denotes. The search itself is a parameter: a function from a
 * line to the text `re.search` reports, described by what it must do. It
 * reports something exactly when the pattern matches somewhere in the line,
 * and what it reports is such a match; which one of several candidate matches
 * it picks is left open.
 */
module Regex {
  import opened Wrappers
  import opened Text

  /** A bracketed character class as its list of inclusive ranges:
      `[A-Za-z]` is `[('A', 'Z'), ('a', 'z')]`. */
  type CharClass = seq<(char, char)>

  predicate InClass(c: char, cls: CharClass) {
    exists k :: 0 <= k < |cls| && cls[k].0 <= c <= cls[k].1
  }

  /** The fragment of regex syntax the two patterns use. */
  datatype Pattern =
    | Lit(c: char)                                        // one literal character
    | Repeat(cls: CharClass, min: nat, max: Option<nat>)  // cls{min,max}; `+` is {1,}
    | Opt(body: Pattern)                                  // body?
    | Cat(first: Pattern, second: Pattern)                // first second

  /** The strings a pattern matches as a whole. */
  predicate Matches(p: Pattern, s: string)
    decreases p
  {
    match p
    case Lit(c) => s == [c]
    case Repeat(cls, lo, hi) =>
      lo <= |s| && (hi.Some? ==> |s| <= hi.value) &&
      forall i :: 0 <= i < |s| ==> InClass(s[i], cls)
    case Opt(q) => s == [] || Matches(q, s)
    case Cat(a, b) => exists k :: 0 <= k <= |s| && Matches(a, s[..k]) && Matches(b, s[k..])
  }

  /** The length of the shortest string the pattern matches. */
  function MinLen(p: Pattern): nat {
    match p
    case Lit(_) => 1
    case Repeat(_, lo, _) => lo
    case Opt(_) => 0
    case Cat(a, b) => MinLen(a) + MinLen(b)
  }

  /** The characters that may occur in a string the pattern matches. */
  predicate Admits(p: Pattern, c: char) {
    match p
    case Lit(d) => c == d
    case Repeat(cls, _, _) => InClass(c, cls)
    case Opt(q) => Admits(q, c)
    case Cat(a, b) => Admits(a, c) || Admits(b, c)
  }

  const Digit: CharClass := [('0', '9')]
  const Separator: CharClass := [('-', '-'), ('.', '.')]

  /** The phone pattern of app.py:53: an optional `+` with one to three digits
      and an optional separator, an optional opening parenthesis, three
      digits, an optional closing parenthesis, then three and four digits,
      each group optionally preceded by one separator. Between the digit
      groups only `-` or `.` may stand: no space. */
  const PhonePattern: Pattern :=
    Cat(Opt(Cat(Lit('+'), Cat(Repeat(Digit, 1, Some(3)), Opt(Repeat(Separator, 1, Some(1)))))),
    Cat(Opt(Lit('(')),
    Cat(Repeat(Digit, 3, Some(3)),
    Cat(Opt(Lit(')')),
    Cat(Opt(Repeat(Separator, 1, Some(1))),
    Cat(Repeat(Digit, 3, Some(3)),
    Cat(Opt(Repeat(Separator, 1, Some(1))),
        Repeat(Digit, 4, Some(4)))))))))

  /** Letters, digits and `. _ % + -`. */
  const LocalPart: CharClass :=
    [('A', 'Z'), ('a', 'z'), ('0', '9'), ('.', '.'), ('_', '_'), ('%', '%'), ('+', '+'), ('-', '-')]
  /** Letters, digits and `. -`. */
  const DomainPart: CharClass := [('A', 'Z'), ('a', 'z'), ('0', '9'), ('.', '.'), ('-', '-')]
  /** Letters and, because inside brackets the bar is an ordinary member of
      the class, `|`. */
  const TopLevelDomain: CharClass := [('A', 'Z'), ('|', '|'), ('a', 'z')]

  /** The e-mail pattern of app.py:52: a local part, `@`, a domain part, a
      dot and at least two top-level-domain characters, without the two
      word-boundary assertions. */
  const EmailPattern: Pattern :=
    Cat(Repeat(LocalPart, 1, None),
    Cat(Lit('@'),
    Cat(Repeat(DomainPart, 1, None),
    Cat(Lit('.'),
        Repeat(TopLevelDomain, 2, None)))))

  /** `m` is a substring of `line` that `p` matches as a whole. */
  predicate FoundIn(p: Pattern, m: string, line: string) {
    Matches(p, m) && Contains(line, m)
  }

  /** Every match the matcher reports is a substring of the line that the pattern matches. */
  ghost predicate SoundMatcher(p: Pattern, find: string -> Option<string>) {
    forall line :: find(line).Some? ==> FoundIn(p, find(line).value, line)
  }

  /** `\w` on ASCII: a letter, a digit or `_`. */
  predicate IsWordChar(c: char) {
    IsLetter(c) || IsDigit(c) || c == '_'
  }

  /** `\b` at index `p` of `line`: a word character stands on exactly one side
      of `p` (beyond either end of the line there is none). */
  predicate WordBoundary(line: string, p: nat) {
    (0 < p <= |line| && IsWordChar(line[p - 1])) != (p < |line| && IsWordChar(line[p]))
  }

  /** `m` is a substring of `line` that `p` matches as a whole and that has a
      word boundary at both ends: what a search for `\b` `p` `\b` can report. */
  predicate FoundBetweenBoundaries(p: Pattern, m: string, line: string) {
    Matches(p, m) &&
    exists i :: 0 <= i <= |line| - |m| && OccursAt(line, m, i) && WordBoundary(line, i) && WordBoundary(line, i + |m|)
  }

  /** `re.search` with the phone pattern (app.py:53, 60-61): whatever it
      reports is a match, and it reports one whenever a substring of the line
      matches. */
  ghost predicate PhoneSearch(find: string -> Option<string>) {
    SoundMatcher(PhonePattern, find) &&
    forall line, m :: FoundIn(PhonePattern, m, line) ==> find(line).Some?
  }

  /** `re.search` with the e-mail pattern (app.py:52, 58-59), whose two `\b`
      assertions ask for a word boundary at both ends of the match. */
  ghost predicate EmailSearch(find: string -> Option<string>) {
    (forall line :: find(line).Some? ==> FoundBetweenBoundaries(EmailPattern, find(line).value, line)) &&
    forall line, m :: FoundBetweenBoundaries(EmailPattern, m, line) ==> find(line).Some?
  }

  /** The phone search finds nothing in a line exactly when no substring of
      it matches the phone pattern. */
  lemma PhoneSearchNone(find: string -> Option<string>, line: string)
    requires PhoneSearch(find)
    ensures find(line).None? <==> forall m :: !FoundIn(PhonePattern, m, line)
  {
    if find(line).Some? {
      assert FoundIn(PhonePattern, find(line).value, line);
    }
  }

  /** The e-mail search finds nothing in a line exactly when no substring of
      it between two word boundaries matches the e-mail pattern. */
  lemma EmailSearchNone(find: string -> Option<string>, line: string)
    requires EmailSearch(find)
    ensures find(line).None? <==> forall m :: !FoundBetweenBoundaries(EmailPattern, m, line)
  {
    if find(line).Some? {
      assert FoundBetweenBoundaries(EmailPattern, find(line).value, line);
    }
  }

  /** What the e-mail search reports is never empty. */
  lemma EmailMatchNonEmpty(find: string -> Option<string>, line: string)
    requires EmailSearch(find)
    requires find(line).Some?
    ensures find(line).value != ""
  {
    assert FoundBetweenBoundaries(EmailPattern, find(line).value, line);
    MatchLength(EmailPattern, find(line).value);
  }

  lemma {:induction false} MatchLength(p: Pattern, s: string)
    requires Matches(p, s)
    ensures MinLen(p) <= |s|
  {
    match p
    case Lit(_) =>
    case Repeat(_, _, _) =>
    case Opt(q) =>
    case Cat(a, b) =>
      var k :| 0 <= k <= |s| && Matches(a, s[..k]) && Matches(b, s[k..]);
      MatchLength(a, s[..k]);
      MatchLength(b, s[k..]);
  }

  lemma {:induction false} MatchAlphabet(p: Pattern, s: string, i: nat)
    requires Matches(p, s) && i < |s|
    ensures Admits(p, s[i])
  {
    match p
    case Lit(_) =>
    case Repeat(_, _, _) =>
    case Opt(q) => MatchAlphabet(q, s, i);
    case Cat(a, b) =>
      var k :| 0 <= k <= |s| && Matches(a, s[..k]) && Matches(b, s[k..]);
      if i < k {
        MatchAlphabet(a, s[..k], i);
      } else {
        MatchAlphabet(b, s[k..], i - k);
      }
  }

  /** A sound email or phone matcher never reports an empty match, so the
      "field still empty" test of the contact scan is the same as "no match yet". */
  lemma SoundMatchNonEmpty(p: Pattern, find: string -> Option<string>, line: string)
    requires SoundMatcher(p, find) && MinLen(p) > 0
    requires find(line).Some?
    ensures find(line).value != ""
  {
    MatchLength(p, find(line).value);
  }

  lemma PatternMinimums()
    ensures MinLen(PhonePattern) == 10 && MinLen(EmailPattern) == 6
  {
  }

  lemma PhoneHasNoSpace()
    ensures !Admits(PhonePattern, ' ')
  {
  }

  lemma AllDigits(t: string)
    requires forall i :: 0 <= i < |t| ==> IsDigit(t[i])
    ensures forall i :: 0 <= i < |t| ==> InClass(t[i], Digit)
  {
    forall i | 0 <= i < |t| ensures InClass(t[i], Digit) {
      assert Digit[0].0 <= t[i] <= Digit[0].1;
    }
  }

  /** Every phone match has at least ten characters and no space. */
  lemma PhoneMatchShape(m: string)
    requires Matches(PhonePattern, m)
    ensures |m| >= 10 && forall k :: 0 <= k < |m| ==> m[k] != ' '
  {
    PatternMinimums();
    MatchLength(PhonePattern, m);
    forall k | 0 <= k < |m| ensures m[k] != ' ' {
      MatchAlphabet(PhonePattern, m, k);
      PhoneHasNoSpace();
    }
  }

  /** Whatever a sound phone matcher reports spans ten characters of the line
      with no space among them. */
  lemma PhoneMatchSpansTenWithoutSpace(find: string -> Option<string>, line: string)
    requires SoundMatcher(PhonePattern, find)
    ensures find(line).Some? ==> exists i :: 0 <= i <= |line| - 10 && !SpaceInTen(line, i)
  {
    if find(line).Some? {
      var m := find(line).value;
      assert FoundIn(PhonePattern, m, line);
      PhoneMatchShape(m);
      var i :| 0 <= i <= |line| - |m| && OccursAt(line, m, i);
      SpaceFreeWindow(line, m, i);
    }
  }

  lemma SpaceFreeWindow(line: string, m: string, i: nat)
    requires OccursAt(line, m, i) && |m| >= 10
    requires forall k :: 0 <= k < |m| ==> m[k] != ' '
    ensures !SpaceInTen(line, i)
  {
    forall k | i <= k < i + 10 && k < |line| ensures line[k] != ' ' {
      assert line[i..i + |m|][k - i] == line[k];
    }
  }

  /** A sound phone matcher finds nothing in a line where every stretch of ten
      characters holds a space. */
  lemma PhoneNeedsTenWithoutSpace(find: string -> Option<string>, line: string)
    requires SoundMatcher(PhonePattern, find)
    requires forall i :: 0 <= i <= |line| - 10 ==> SpaceInTen(line, i)
    ensures find(line) == None
  {
    PhoneMatchSpansTenWithoutSpace(find, line);
  }

  /** One of the ten characters from index `i` on is a space. */
  predicate SpaceInTen(line: string, i: nat) {
    exists k :: i <= k < i + 10 && k < |line| && line[k] == ' '
  }

  /** The phone pattern has no space between digit groups, so the common
      spelling "(555) 123-4567" holds no phone number at all: any sound matcher
      reports nothing for it. */
  lemma SpacedPhoneNotFound(find: string -> Option<string>)
    requires SoundMatcher(PhonePattern, find)
    ensures find("(555) 123-4567") == None
  {
    var line := "(555) 123-4567";
    forall i | 0 <= i <= |line| - 10 ensures SpaceInTen(line, i) {
      assert line[5] == ' ';
    }
    PhoneNeedsTenWithoutSpace(find, line);
  }

  lemma CatIntro(a: Pattern, b: Pattern, s: string, k: nat)
    requires k <= |s| && Matches(a, s[..k]) && Matches(b, s[k..])
    ensures Matches(Cat(a, b), s)
  {
  }

  lemma ClassRun(cls: CharClass, lo: nat, hi: Option<nat>, s: string, r: nat)
    requires r < |cls| && lo <= |s| && (hi.Some? ==> |s| <= hi.value)
    requires forall i :: 0 <= i < |s| ==> cls[r].0 <= s[i] <= cls[r].1
    ensures Matches(Repeat(cls, lo, hi), s)
  {
    forall i | 0 <= i < |s| ensures InClass(s[i], cls) {
      assert cls[r].0 <= s[i] <= cls[r].1;
    }
  }

  lemma OptEmpty(q: Pattern)
    ensures Matches(Opt(q), [])
  {
  }

  lemma SeparatorMatch(sep: string)
    requires sep == "" || sep == "-" || sep == "."
    ensures Matches(Opt(Repeat(Separator, 1, Some(1))), sep)
  {
    if sep == "-" {
      assert Separator[0].0 <= sep[0] <= Separator[0].1;
    } else if sep == "." {
      assert Separator[1].0 <= sep[0] <= Separator[1].1;
    }
  }

  predicate AllDigitsOf(t: string, n: nat) {
    |t| == n && forall i :: 0 <= i < |t| ==> IsDigit(t[i])
  }

  const Country: Pattern := Opt(Cat(Lit('+'), Cat(Repeat(Digit, 1, Some(3)), Opt(Repeat(Separator, 1, Some(1))))))
  const OptSeparator: Pattern := Opt(Repeat(Separator, 1, Some(1)))
  /** The phone pattern after its optional opening parenthesis. */
  const PhoneGroups: Pattern :=
    Cat(Repeat(Digit, 3, Some(3)),
    Cat(Opt(Lit(')')),
    Cat(OptSeparator,
    Cat(Repeat(Digit, 3, Some(3)),
    Cat(OptSeparator,
        Repeat(Digit, 4, Some(4)))))))

  lemma PhoneGroupsIntro(a: string, s1: string, b: string, s2: string, c: string)
    requires AllDigitsOf(a, 3) && AllDigitsOf(b, 3) && AllDigitsOf(c, 4)
    requires s1 == "" || s1 == "-" || s1 == "."
    requires s2 == "" || s2 == "-" || s2 == "."
    ensures Matches(PhoneGroups, a + (s1 + (b + (s2 + c))))
  {
    var d4 := Repeat(Digit, 4, Some(4));
    var d3 := Repeat(Digit, 3, Some(3));
    AllDigits(a);
    AllDigits(b);
    AllDigits(c);
    SeparatorMatch(s1);
    SeparatorMatch(s2);
    var t7 := s2 + c;
    assert t7[..|s2|] == s2 && t7[|s2|..] == c;
    CatIntro(OptSeparator, d4, t7, |s2|);
    var t6 := b + t7;
    assert t6[..3] == b && t6[3..] == t7;
    CatIntro(d3, Cat(OptSeparator, d4), t6, 3);
    var t5 := s1 + t6;
    assert t5[..|s1|] == s1 && t5[|s1|..] == t6;
    CatIntro(OptSeparator, Cat(d3, Cat(OptSeparator, d4)), t5, |s1|);
    var p5 := Cat(OptSeparator, Cat(d3, Cat(OptSeparator, d4)));
    assert t5[..0] == [] && t5[0..] == t5;
    OptEmpty(Lit(')'));
    CatIntro(Opt(Lit(')')), p5, t5, 0);
    var t3 := a + t5;
    assert t3[..3] == a && t3[3..] == t5;
    CatIntro(d3, Cat(Opt(Lit(')')), p5), t3, 3);
  }

  /** Three, three and four digits, with nothing, `-` or `.` between the groups,
      form a phone number. */
  lemma PhoneIntro(a: string, s1: string, b: string, s2: string, c: string)
    requires AllDigitsOf(a, 3) && AllDigitsOf(b, 3) && AllDigitsOf(c, 4)
    requires s1 == "" || s1 == "-" || s1 == "."
    requires s2 == "" || s2 == "-" || s2 == "."
    ensures Matches(PhonePattern, a + (s1 + (b + (s2 + c))))
  {
    var t := a + (s1 + (b + (s2 + c)));
    PhoneGroupsIntro(a, s1, b, s2, c);
    assert t[..0] == [] && t[0..] == t;
    OptEmpty(Lit('('));
    CatIntro(Opt(Lit('(')), PhoneGroups, t, 0);
    OptEmpty(Cat(Lit('+'), Cat(Repeat(Digit, 1, Some(3)), OptSeparator)));
    CatIntro(Country, Cat(Opt(Lit('(')), PhoneGroups), t, 0);
    assert PhonePattern == Cat(Country, Cat(Opt(Lit('(')), PhoneGroups));
  }

  /** Every `local@domain.tld` with the three parts drawn from their classes is
      an email match. */
  lemma EmailIntro(local: string, domain: string, tld: string)
    requires |local| >= 1 && forall i :: 0 <= i < |local| ==> InClass(local[i], LocalPart)
    requires |domain| >= 1 && forall i :: 0 <= i < |domain| ==> InClass(domain[i], DomainPart)
    requires |tld| >= 2 && forall i :: 0 <= i < |tld| ==> InClass(tld[i], TopLevelDomain)
    ensures Matches(EmailPattern, local + ("@" + (domain + ("." + tld))))
  {
    var ptld := Repeat(TopLevelDomain, 2, None);
    var t4 := "." + tld;
    assert t4[..1] == "." && t4[1..] == tld;
    CatIntro(Lit('.'), ptld, t4, 1);
    var t3 := domain + t4;
    assert t3[..|domain|] == domain && t3[|domain|..] == t4;
    CatIntro(Repeat(DomainPart, 1, None), Cat(Lit('.'), ptld), t3, |domain|);
    var t2 := "@" + t3;
    assert t2[..1] == "@" && t2[1..] == t3;
    CatIntro(Lit('@'), Cat(Repeat(DomainPart, 1, None), Cat(Lit('.'), ptld)), t2, 1);
    var t1 := local + t2;
    assert t1[..|local|] == local && t1[|local|..] == t2;
    CatIntro(Repeat(LocalPart, 1, None), Cat(Lit('@'), Cat(Repeat(DomainPart, 1, None), Cat(Lit('.'), ptld))), t1, |local|);
  }

  /** The top-level-domain class `[A-Z|a-z]` also admits a literal `|`, so an
      email match may hold one. */
  lemma EmailAdmitsBar()
    ensures Admits(EmailPattern, '|')
  {
    assert TopLevelDomain[1].0 <= '|' <= TopLevelDomain[1].1;
  }
}
