/**
 * The section segmenter of `extract_resume_data` (app.py:75-110): a header
 * line (one whose lower-cased, stripped text contains a keyword) opens a
 * section, and the non-blank lines up to the next header are that section's
 * buffer, handed to `parse_section` when it is non-empty and some section is
 * open.
 *
 * `Run` is the loop as a fold over its state `(current_section,
 * section_content)`; `Sections` is the independent description ("cut the
 * document at its header lines"), and `SegmentIsSections` connects the two.
 */
module Sections {
  import opened Wrappers
  import opened Text

  datatype Section = Experience | Education | Skills | Projects

  // The keyword lists of app.py:78-81.
  const ExperienceKeywords: seq<string> :=
    ["experience", "work history", "employment", "professional experience"]
  const EducationKeywords: seq<string> := ["education", "academic background", "qualifications"]
  const SkillsKeywords: seq<string> := ["skills", "technical skills", "expertise", "competencies"]
  const ProjectsKeywords: seq<string> := ["projects", "portfolio", "work samples"]

  function Keywords(kind: Section): seq<string> {
    match kind
    case Experience => ExperienceKeywords
    case Education => EducationKeywords
    case Skills => SkillsKeywords
    case Projects => ProjectsKeywords
  }

  /** The order in which the keyword sets are tried. */
  function Rank(kind: Section): nat {
    match kind
    case Experience => 0
    case Education => 1
    case Skills => 2
    case Projects => 3
  }

  /** `any(keyword in text for keyword in keywords)` */
  predicate MentionsAny(text: string, keywords: seq<string>) {
    exists k :: 0 <= k < |keywords| && Contains(text, keywords[k])
  }

  /** The line lower-cased, then stripped (app.py:84). */
  function Normalize(line: string): string {
    Strip(Lower(line))
  }

  /** The order of the tests at app.py:86-105. */
  const Priority: seq<Section> := [Experience, Education, Skills, Projects]

  /** The first of `kinds` whose keywords the text mentions. */
  function FirstMentioned(text: string, kinds: seq<Section>): Option<Section>
    decreases |kinds|
  {
    if kinds == [] then None
    else if MentionsAny(text, Keywords(kinds[0])) then Some(kinds[0])
    else FirstMentioned(text, kinds[1..])
  }

  /** The header test of app.py:84-105. */
  function Classify(line: string): Option<Section> {
    FirstMentioned(Normalize(line), Priority)
  }

  predicate IsHeader(line: string) {
    Classify(line).Some?
  }

  /** `FirstMentioned` picks the first kind of the list whose keywords are
      mentioned, and finds nothing only when none is. */
  lemma {:induction false} FirstMentionedIsFirst(text: string, kinds: seq<Section>)
    ensures FirstMentioned(text, kinds).None? <==>
            forall i :: 0 <= i < |kinds| ==> !MentionsAny(text, Keywords(kinds[i]))
    ensures FirstMentioned(text, kinds).Some? ==>
            exists j :: 0 <= j < |kinds| && kinds[j] == FirstMentioned(text, kinds).value &&
                        MentionsAny(text, Keywords(kinds[j])) &&
                        forall i :: 0 <= i < j ==> !MentionsAny(text, Keywords(kinds[i]))
  {
    if kinds != [] && !MentionsAny(text, Keywords(kinds[0])) {
      var rest := kinds[1..];
      FirstMentionedIsFirst(text, rest);
      assert forall i :: 1 <= i < |kinds| ==> kinds[i] == rest[i - 1];
      if FirstMentioned(text, rest).Some? {
        var j :| 0 <= j < |rest| && rest[j] == FirstMentioned(text, rest).value &&
                 MentionsAny(text, Keywords(rest[j])) &&
                 forall i :: 0 <= i < j ==> !MentionsAny(text, Keywords(rest[i]));
        assert kinds[j + 1] == rest[j];
      }
    }
  }

  /** A line is a header exactly when its normalized text mentions some
      keyword, and then it opens the section of the first keyword set, in the
      order experience, education, skills, projects, that it mentions. */
  lemma ClassifyFirstMatch(line: string)
    ensures IsHeader(line) <==> exists kind: Section :: MentionsAny(Normalize(line), Keywords(kind))
    ensures IsHeader(line) ==> MentionsAny(Normalize(line), Keywords(Classify(line).value))
    ensures IsHeader(line) ==> forall kind: Section :: Rank(kind) < Rank(Classify(line).value) ==>
                                                         !MentionsAny(Normalize(line), Keywords(kind))
  {
    PriorityFirstMatch(Normalize(line));
  }

  lemma PriorityFirstMatch(text: string)
    ensures FirstMentioned(text, Priority).Some? <==> exists kind: Section :: MentionsAny(text, Keywords(kind))
    ensures FirstMentioned(text, Priority).Some? ==>
            MentionsAny(text, Keywords(FirstMentioned(text, Priority).value))
    ensures FirstMentioned(text, Priority).Some? ==>
            forall kind: Section :: Rank(kind) < Rank(FirstMentioned(text, Priority).value) ==>
                                    !MentionsAny(text, Keywords(kind))
  {
    FirstMentionedIsFirst(text, Priority);
    assert forall kind: Section :: Priority[Rank(kind)] == kind;
    assert forall j :: 0 <= j < |Priority| ==> Rank(Priority[j]) == j;
  }

  /** Any line that mentions "experience", wherever it stands in the document
      and whatever else it mentions, is an experience header. */
  lemma ExperienceWins(line: string)
    requires Contains(Normalize(line), "experience")
    ensures Classify(line) == Some(Experience)
  {
    assert ExperienceKeywords[0] == "experience";
  }

  // ---------------------------------------------------------------------------
  // The loop. It is stated for any header test `classify`, so that its
  // structure is reasoned about apart from the keyword search; the program's
  // loop is the instance `Classify`.

  type Classifier = string -> Option<Section>

  /** One call of `parse_section(data, section, content)`. */
  datatype Flush = Flush(section: Section, content: seq<string>)

  /** The guarded call of app.py:87 and 109: a flush only when a section is
      open and its buffer is non-empty. */
  function FlushIf(current: Option<Section>, buffer: seq<string>): (r: seq<Flush>)
    ensures |r| <= 1
    ensures r != [] <==> current.Some? && buffer != []
    ensures r != [] ==> r[0] == Flush(current.value, buffer)
  {
    if current.Some? && buffer != [] then [Flush(current.value, buffer)] else []
  }

  /** The buffer after one non-header line: non-blank lines are kept as they
      are, unstripped; blank lines are skipped (app.py:106-107). */
  function Buffer(buffer: seq<string>, line: string): seq<string> {
    if IsBlank(line) then buffer else buffer + [line]
  }

  /** The calls of `parse_section` the loop makes on the remaining lines `ls`
      from state `(current, buffer)`, the final flush (app.py:109-110)
      included. A header flushes and opens its section with an empty buffer. */
  function Run(classify: Classifier, current: Option<Section>, buffer: seq<string>, ls: seq<string>): seq<Flush>
    decreases |ls|
  {
    if ls == [] then FlushIf(current, buffer)
    else
      match classify(ls[0])
      case Some(kind) => FlushIf(current, buffer) + Run(classify, Some(kind), [], ls[1..])
      case None => Run(classify, current, Buffer(buffer, ls[0]), ls[1..])
  }

  /** The calls the whole loop makes, from `current_section = None` and an
      empty buffer. */
  function Segment(lines: seq<string>): seq<Flush> {
    Run(Classify, None, [], lines)
  }

  // ---------------------------------------------------------------------------
  // The reference description.

  /** The first header at or after `from`, or `|ls|` when there is none. */
  function NextHeader(classify: Classifier, ls: seq<string>, from: nat): (n: nat)
    requires from <= |ls|
    decreases |ls| - from
    ensures from <= n <= |ls|
    ensures forall j :: from <= j < n ==> classify(ls[j]).None?
    ensures n < |ls| ==> classify(ls[n]).Some?
  {
    if from == |ls| || classify(ls[from]).Some? then from else NextHeader(classify, ls, from + 1)
  }

  /** The non-blank lines of `ls`, in order, unstripped. */
  function NonBlank(ls: seq<string>): (r: seq<string>)
    ensures forall i :: 0 <= i < |r| ==> !IsBlank(r[i]) && r[i] in ls
  {
    if ls == [] then [] else (if IsBlank(ls[0]) then [] else [ls[0]]) + NonBlank(ls[1..])
  }

  /** The sections of a document that starts with a header: this header's
      section holds the non-blank lines up to the next header and is kept when
      that is non-empty; the rest of the document follows. */
  function SectionsFrom(classify: Classifier, ls: seq<string>): seq<Flush>
    requires ls != [] && classify(ls[0]).Some?
    decreases |ls|
  {
    var n := NextHeader(classify, ls, 1);
    FlushIf(classify(ls[0]), NonBlank(ls[1..n])) +
    (if n < |ls| then SectionsFrom(classify, ls[n..]) else [])
  }

  /** The document cut at its header lines; whatever precedes the first
      header belongs to no section. */
  function SectionsBy(classify: Classifier, lines: seq<string>): seq<Flush> {
    var k := NextHeader(classify, lines, 0);
    if k < |lines| then SectionsFrom(classify, lines[k..]) else []
  }

  function SectionsOf(lines: seq<string>): seq<Flush> {
    SectionsBy(Classify, lines)
  }

  lemma NextHeaderShift(classify: Classifier, ls: seq<string>)
    requires ls != []
    ensures NextHeader(classify, ls[1..], 0) + 1 == NextHeader(classify, ls, 1)
  {
    var m := NextHeader(classify, ls[1..], 0);
    var n := NextHeader(classify, ls, 1);
    forall j | 1 <= j < m + 1 ensures classify(ls[j]).None? {
      assert ls[j] == ls[1..][j - 1];
    }
    if m < |ls| - 1 {
      assert ls[1..][m] == ls[m + 1];
    }
    forall j | 0 <= j < n - 1 ensures classify(ls[1..][j]).None? {
      assert ls[1..][j] == ls[j + 1];
    }
    if n < |ls| {
      assert ls[1..][n - 1] == ls[n];
    }
  }

  lemma NonBlankCons(ls: seq<string>, n: nat)
    requires 0 < n <= |ls|
    ensures NonBlank(ls[..n]) == (if IsBlank(ls[0]) then [] else [ls[0]]) + NonBlank(ls[1..n])
  {
    assert ls[..n][1..] == ls[1..n];
  }

  /** The pending flush, extended by the non-blank lines before the next
      header, followed by the sections from that header on. */
  function Split(classify: Classifier, current: Option<Section>, buffer: seq<string>, ls: seq<string>): seq<Flush> {
    var n := NextHeader(classify, ls, 0);
    FlushIf(current, buffer + NonBlank(ls[..n])) + (if n < |ls| then SectionsFrom(classify, ls[n..]) else [])
  }

  lemma HeaderStep(classify: Classifier, current: Option<Section>, buffer: seq<string>, ls: seq<string>)
    requires ls != [] && classify(ls[0]).Some?
    ensures Split(classify, current, buffer, ls) ==
            FlushIf(current, buffer) + Split(classify, classify(ls[0]), [], ls[1..])
  {
    assert NextHeader(classify, ls, 0) == 0;
    assert ls[..0] == [] && buffer + [] == buffer && ls[0..] == ls;
    var rest := ls[1..];
    NextHeaderShift(classify, ls);
    var m := NextHeader(classify, rest, 0);
    assert rest[..m] == ls[1..m + 1];
    assert [] + NonBlank(rest[..m]) == NonBlank(ls[1..m + 1]);
    if m < |rest| {
      assert rest[m..] == ls[m + 1..];
    }
  }

  lemma LineStep(classify: Classifier, current: Option<Section>, buffer: seq<string>, ls: seq<string>)
    requires ls != [] && classify(ls[0]).None?
    ensures Split(classify, current, buffer, ls) == Split(classify, current, Buffer(buffer, ls[0]), ls[1..])
  {
    var n := NextHeader(classify, ls, 0);
    var rest := ls[1..];
    NextHeaderShift(classify, ls);
    var m := NextHeader(classify, rest, 0);
    assert n == m + 1;
    assert rest[..m] == ls[1..n];
    NonBlankCons(ls, n);
    assert Buffer(buffer, ls[0]) + NonBlank(rest[..m]) == buffer + NonBlank(ls[..n]);
    if m < |rest| {
      assert rest[m..] == ls[n..];
    }
  }

  /** The loop from any state is its pending flush, extended by the non-blank
      lines before the next header, followed by the sections from that header
      on. */
  lemma {:induction false} RunSplits(classify: Classifier, current: Option<Section>, buffer: seq<string>,
                                     ls: seq<string>)
    decreases |ls|
    ensures Run(classify, current, buffer, ls) == Split(classify, current, buffer, ls)
  {
    if ls == [] {
      assert buffer + [] == buffer;
    } else if classify(ls[0]).Some? {
      RunSplits(classify, classify(ls[0]), [], ls[1..]);
      HeaderStep(classify, current, buffer, ls);
    } else {
      RunSplits(classify, current, Buffer(buffer, ls[0]), ls[1..]);
      LineStep(classify, current, buffer, ls);
    }
  }

  /** The loop computes the reference description. */
  lemma SegmentIsSections(lines: seq<string>)
    ensures Segment(lines) == SectionsOf(lines)
  {
    RunSplits(Classify, None, [], lines);
    assert [] + NonBlank(lines[..NextHeader(Classify, lines, 0)]) == NonBlank(lines[..NextHeader(Classify, lines, 0)]);
  }

  // ---------------------------------------------------------------------------
  // What reaches `parse_section`.

  /** A buffer line: non-blank and not a header. */
  predicate Buffered(classify: Classifier, line: string) {
    !IsBlank(line) && classify(line).None?
  }

  /** A flush as the loop makes it: a non-empty buffer of non-blank,
      non-header lines. */
  predicate Clean(classify: Classifier, f: Flush) {
    f.content != [] && forall i :: 0 <= i < |f.content| ==> Buffered(classify, f.content[i])
  }

  predicate AllClean(classify: Classifier, fs: seq<Flush>) {
    forall i :: 0 <= i < |fs| ==> Clean(classify, fs[i])
  }

  lemma {:induction false} RunClean(classify: Classifier, current: Option<Section>, buffer: seq<string>,
                                    ls: seq<string>)
    requires AllBuffered(classify, buffer)
    decreases |ls|
    ensures AllClean(classify, Run(classify, current, buffer, ls))
  {
    if ls == [] {
      FlushIfClean(classify, current, buffer);
    } else {
      match classify(ls[0])
      case Some(kind) =>
        FlushIfClean(classify, current, buffer);
        RunClean(classify, Some(kind), [], ls[1..]);
        AllCleanAppend(classify, FlushIf(current, buffer), Run(classify, Some(kind), [], ls[1..]));
      case None =>
        BufferKeeps(classify, buffer, ls[0]);
        RunClean(classify, current, Buffer(buffer, ls[0]), ls[1..]);
    }
  }

  predicate AllBuffered(classify: Classifier, buffer: seq<string>) {
    forall i :: 0 <= i < |buffer| ==> Buffered(classify, buffer[i])
  }

  lemma FlushIfClean(classify: Classifier, current: Option<Section>, buffer: seq<string>)
    requires AllBuffered(classify, buffer)
    ensures AllClean(classify, FlushIf(current, buffer))
  {
  }

  lemma BufferKeeps(classify: Classifier, buffer: seq<string>, line: string)
    requires AllBuffered(classify, buffer) && classify(line).None?
    ensures AllBuffered(classify, Buffer(buffer, line))
  {
  }

  lemma AllCleanAppend(classify: Classifier, a: seq<Flush>, b: seq<Flush>)
    requires AllClean(classify, a) && AllClean(classify, b)
    ensures AllClean(classify, a + b)
  {
    forall i | 0 <= i < |a + b| ensures Clean(classify, (a + b)[i]) {
      if i < |a| {
        assert (a + b)[i] == a[i];
      } else {
        assert (a + b)[i] == b[i - |a|];
      }
    }
  }

  /** Every call of `parse_section` from the loop gets a non-empty buffer
      without blank lines and without header lines. */
  lemma SegmentClean(lines: seq<string>)
    ensures AllClean(Classify, Segment(lines))
  {
    RunClean(Classify, None, [], lines);
  }

  lemma {:induction false} NoSectionNoFlush(classify: Classifier, b1: seq<string>, b2: seq<string>,
                                            ls: seq<string>)
    decreases |ls|
    ensures Run(classify, None, b1, ls) == Run(classify, None, b2, ls)
  {
    if ls != [] && classify(ls[0]).None? {
      NoSectionNoFlush(classify, Buffer(b1, ls[0]), Buffer(b2, ls[0]), ls[1..]);
    }
  }

  /** The buffer after the header-free lines `ls`. */
  function BufferAfter(buffer: seq<string>, ls: seq<string>): seq<string>
    decreases |ls|
  {
    if ls == [] then buffer else BufferAfter(Buffer(buffer, ls[0]), ls[1..])
  }

  lemma {:induction false} PreambleRun(classify: Classifier, preamble: seq<string>, rest: seq<string>,
                                       buffer: seq<string>)
    requires forall i :: 0 <= i < |preamble| ==> classify(preamble[i]).None?
    ensures Run(classify, None, buffer, preamble + rest) ==
            Run(classify, None, BufferAfter(buffer, preamble), rest)
  {
    if preamble != [] {
      var ls := preamble + rest;
      assert ls[0] == preamble[0];
      assert ls[1..] == preamble[1..] + rest;
      PreambleRun(classify, preamble[1..], rest, Buffer(buffer, ls[0]));
    } else {
      assert preamble + rest == rest;
    }
  }

  /** Lines before the first header never reach `parse_section`: putting any
      header-free text in front of a document changes none of its sections. */
  lemma PreambleIgnored(preamble: seq<string>, rest: seq<string>)
    requires forall i :: 0 <= i < |preamble| ==> !IsHeader(preamble[i])
    ensures Segment(preamble + rest) == Segment(rest)
  {
    PreambleRun(Classify, preamble, rest, []);
    NoSectionNoFlush(Classify, BufferAfter([], preamble), [], rest);
  }
}
