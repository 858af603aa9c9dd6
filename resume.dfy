/**
 * `extract_resume_data` and `parse_section` (app.py:24-194): the record built
 * from the lines of a resume.
 *
 * `ResumeData` is the `data` dictionary the two functions fill in place, and
 * `ExtractResumeData` / `ParseSection` are their loops. Each method is proved
 * to leave the state that the pure specification `Extract` / `ApplySection`
 * describes, and the lemmas of this module state what that record holds:
 * which line each header field comes from, that the header windows are 20,
 * 10 and 9 lines long, and how the entries follow the sections.
 */
module Resume {
  import opened Wrappers
  import opened Text
  import opened Regex
  import opened Patterns
  import opened Records
  import opened Sections

  // ---------------------------------------------------------------------------
  // The record.

  /** The twelve keys of `data` (app.py:26-39). */
  datatype ResumeRecord = ResumeRecord(
    name: string, title: string, email: string, phone: string,
    linkedin: string, github: string, website: string, summary: string,
    experience: seq<Job>, education: seq<Degree>, skills: seq<string>, projects: seq<Project>)

  /** The record as `extract_resume_data` initialises it. */
  const EmptyResume: ResumeRecord :=
    ResumeRecord("", "", "", "", "", "", "", "", [], [], [], [])

  /** A search of one line: the matched text, if any. */
  type Matcher = string -> Option<string>

  /** The `linkedin` and `github` values a line yields: `"https://"` and the match. */
  function LinkedInOf(line: string): Option<string> {
    ProfileUrl(line, LinkedInPrefix)
  }

  function GitHubOf(line: string): Option<string> {
    ProfileUrl(line, GitHubPrefix)
  }

  /** The result of `find` on the first line of `ls` where it finds something. */
  function FirstMatch(ls: seq<string>, find: Matcher): Option<string> {
    if ls == [] then None
    else if find(ls[0]).Some? then find(ls[0])
    else FirstMatch(ls[1..], find)
  }

  /** `FirstMatch` finds nothing exactly when no line matches. */
  lemma {:induction false} FirstMatchNone(ls: seq<string>, find: Matcher)
    ensures FirstMatch(ls, find).None? <==> forall i :: 0 <= i < |ls| ==> find(ls[i]).None?
  {
    if ls != [] && find(ls[0]).None? {
      FirstMatchNone(ls[1..], find);
      forall i | 1 <= i < |ls| ensures ls[i] == ls[1..][i - 1] { }
    }
  }

  /** What `FirstMatch` finds is the match of a line that no earlier line
      matches. */
  lemma {:induction false} FirstMatchSome(ls: seq<string>, find: Matcher) returns (k: nat)
    requires FirstMatch(ls, find).Some?
    ensures k < |ls| && find(ls[k]) == FirstMatch(ls, find)
    ensures forall j :: 0 <= j < k ==> find(ls[j]).None?
  {
    if find(ls[0]).Some? {
      k := 0;
    } else {
      var t := FirstMatchSome(ls[1..], find);
      k := t + 1;
      forall j | 1 <= j < k ensures ls[j] == ls[1..][j - 1] { }
    }
  }

  /** The first line of `ls` that satisfies `p`. */
  function FirstWith(ls: seq<string>, p: string -> bool): Option<string> {
    if ls == [] then None
    else if p(ls[0]) then Some(ls[0])
    else FirstWith(ls[1..], p)
  }

  /** `FirstWith` finds nothing exactly when no line satisfies `p`, and
      otherwise returns a line that satisfies it and that no earlier line
      does. */
  lemma {:induction false} FirstWithIsFirst(ls: seq<string>, p: string -> bool)
    ensures FirstWith(ls, p).None? <==> forall i :: 0 <= i < |ls| ==> !p(ls[i])
    ensures FirstWith(ls, p).Some? ==>
              exists i :: 0 <= i < |ls| && ls[i] == FirstWith(ls, p).value && p(ls[i]) &&
                          forall j :: 0 <= j < i ==> !p(ls[j])
  {
    if ls != [] && !p(ls[0]) {
      FirstWithIsFirst(ls[1..], p);
      assert forall i :: 1 <= i < |ls| ==> ls[i] == ls[1..][i - 1];
      if FirstWith(ls, p).Some? {
        var k :| 0 <= k < |ls[1..]| && ls[1..][k] == FirstWith(ls, p).value && p(ls[1..][k]) &&
                 forall j :: 0 <= j < k ==> !p(ls[1..][j]);
        assert ls[k + 1] == FirstWith(ls, p).value;
      }
    }
  }

  /** The name test of app.py:69-70: the stripped line is between 4 and 49
      characters long, and the raw line has no digit and no `@`. */
  predicate NameCandidate(line: string) {
    var t := Strip(line);
    t != [] && |t| > 3 && |t| < 50 && !HasDigit(line) && '@' !in line
  }

  /** The title test of app.py:115: the stripped line is longer than 5
      characters, the raw line has no `@`, and none of its first three raw
      characters is a digit. */
  predicate TitleCandidate(line: string) {
    var t := Strip(line);
    t != [] && |t| > 5 && '@' !in line && !HasDigit(Slice(line, 0, 3))
  }

  /** The name: the first candidate among lines 0..9, stripped. */
  function NameOf(lines: seq<string>): string {
    match FirstWith(Slice(lines, 0, 10), NameCandidate)
    case Some(line) => Strip(line)
    case None => ""
  }

  /** The title: the first candidate among lines 1..9, stripped. */
  function TitleOf(lines: seq<string>): string {
    match FirstWith(Slice(lines, 1, 10), TitleCandidate)
    case Some(line) => Strip(line)
    case None => ""
  }

  /** What one call of `parse_section` does to the record (app.py:121-194):
      the three entry lists are extended, the skills are replaced. */
  function ApplySection(r: ResumeRecord, f: Flush): ResumeRecord {
    match f.section
    case Experience => r.(experience := r.experience + ParseExperience(f.content))
    case Education => r.(education := r.education + ParseEducation(f.content))
    case Skills => r.(skills := ParseSkills(f.content))
    case Projects => r.(projects := r.projects + ParseProjects(f.content))
  }

  function ApplyAll(r: ResumeRecord, fs: seq<Flush>): ResumeRecord
    decreases |fs|
  {
    if fs == [] then r else ApplyAll(ApplySection(r, fs[0]), fs[1..])
  }

  /** The fresh record after the contact scan of `window`. */
  function Contact(window: seq<string>, emailOf: Matcher, phoneOf: Matcher): ResumeRecord {
    EmptyResume.(
      email := FirstMatch(window, emailOf).GetOr(""),
      phone := FirstMatch(window, phoneOf).GetOr(""),
      linkedin := FirstMatch(window, LinkedInOf).GetOr(""),
      github := FirstMatch(window, GitHubOf).GetOr(""))
  }

  /** The record `extract_resume_data` returns for the given lines, with
      `emailOf` and `phoneOf` standing for the two regular-expression
      searches: the contact scan of lines 0..19, the name, the sections, and
      the title if it is still empty. */
  function Extract(lines: seq<string>, emailOf: Matcher, phoneOf: Matcher): ResumeRecord {
    var named := Contact(Slice(lines, 0, 20), emailOf, phoneOf).(name := NameOf(lines));
    var parsed := ApplyAll(named, Segment(lines));
    if parsed.title == "" then parsed.(title := TitleOf(lines)) else parsed
  }

  // ---------------------------------------------------------------------------
  // The dictionary and the two functions that fill it.

  /** The `data` dictionary, updated in place. */
  class ResumeData {
    var name: string
    var title: string
    var email: string
    var phone: string
    var linkedin: string
    var github: string
    var website: string
    var summary: string
    var experience: seq<Job>
    var education: seq<Degree>
    var skills: seq<string>
    var projects: seq<Project>

    constructor ()
      ensures Snapshot() == EmptyResume
    {
      name, title, email, phone := "", "", "", "";
      linkedin, github, website, summary := "", "", "", "";
      experience, education, skills, projects := [], [], [], [];
    }

    /** The dictionary's current contents. */
    function Snapshot(): ResumeRecord
      reads this
    {
      ResumeRecord(name, title, email, phone, linkedin, github, website, summary,
                   experience, education, skills, projects)
    }
  }

  /** `parse_section(data, section_type, content)`. */
  method ParseSection(data: ResumeData, kind: Section, content: seq<string>)
    modifies data
    ensures data.Snapshot() == ApplySection(old(data.Snapshot()), Flush(kind, content))
  {
    match kind {
      case Experience => ParseExperienceInto(data, content);
      case Education => ParseEducationInto(data, content);
      case Skills => data.skills := ParseSkills(content);
      case Projects => ParseProjectsInto(data, content);
    }
  }

  /** The experience branch of `parse_section` (app.py:123-147). */
  method ParseExperienceInto(data: ResumeData, content: seq<string>)
    modifies data`experience
    ensures data.experience == old(data.experience) + ParseExperience(content)
  {
    var job := NoJob;
    var i := 0;
    while i < |content|
      invariant 0 <= i <= |content|
      invariant data.experience == old(data.experience) + Scan(AddJobLine, NoJob, content[..i]).done
      invariant job == Scan(AddJobLine, NoJob, content[..i]).current
    {
      ScanSnoc(AddJobLine, NoJob, content, i);
      var line := Strip(content[i]);
      if line == [] {
        if job != NoJob {
          data.experience := data.experience + [job];
          job := NoJob;
        }
      } else if DateLike(line) {
        if job.dates.None? {
          job := job.(dates := Some(line));
        }
      } else if Unset(job.title) {
        job := job.(title := Some(line));
      } else if Unset(job.company) {
        job := job.(company := Some(line));
      } else {
        job := job.(description := job.description + [line]);
      }
      i := i + 1;
    }
    assert content[..i] == content;
    if job != NoJob {
      data.experience := data.experience + [job];
    }
  }

  /** The education branch of `parse_section` (app.py:149-169). */
  method ParseEducationInto(data: ResumeData, content: seq<string>)
    modifies data`education
    ensures data.education == old(data.education) + ParseEducation(content)
  {
    var edu := NoDegree;
    var i := 0;
    while i < |content|
      invariant 0 <= i <= |content|
      invariant data.education == old(data.education) + Scan(AddDegreeLine, NoDegree, content[..i]).done
      invariant edu == Scan(AddDegreeLine, NoDegree, content[..i]).current
    {
      ScanSnoc(AddDegreeLine, NoDegree, content, i);
      var line := Strip(content[i]);
      if line == [] {
        if edu != NoDegree {
          data.education := data.education + [edu];
          edu := NoDegree;
        }
      } else if Unset(edu.degree) {
        edu := edu.(degree := Some(line));
      } else if Unset(edu.institution) {
        edu := edu.(institution := Some(line));
      } else {
        edu := edu.(details := edu.details + [line]);
      }
      i := i + 1;
    }
    assert content[..i] == content;
    if edu != NoDegree {
      data.education := data.education + [edu];
    }
  }

  /** The projects branch of `parse_section` (app.py:176-194). */
  method ParseProjectsInto(data: ResumeData, content: seq<string>)
    modifies data`projects
    ensures data.projects == old(data.projects) + ParseProjects(content)
  {
    var project := NoProject;
    var i := 0;
    while i < |content|
      invariant 0 <= i <= |content|
      invariant data.projects == old(data.projects) + Scan(AddProjectLine, NoProject, content[..i]).done
      invariant project == Scan(AddProjectLine, NoProject, content[..i]).current
    {
      ScanSnoc(AddProjectLine, NoProject, content, i);
      var line := Strip(content[i]);
      if line == [] {
        if project != NoProject {
          data.projects := data.projects + [project];
          project := NoProject;
        }
      } else if Unset(project.name) {
        project := project.(name := Some(line));
      } else {
        project := project.(description := project.description + [line]);
      }
      i := i + 1;
    }
    assert content[..i] == content;
    if project != NoProject {
      data.projects := data.projects + [project];
    }
  }

  /** Searches never return the empty text. */
  ghost predicate NonEmptyMatches(find: Matcher) {
    forall line :: find(line).Some? ==> find(line).value != ""
  }

  lemma FirstMatchSnoc(ls: seq<string>, line: string, find: Matcher)
    ensures FirstMatch(ls + [line], find) ==
            if FirstMatch(ls, find).Some? then FirstMatch(ls, find) else find(line)
  {
    if ls != [] {
      assert (ls + [line])[1..] == ls[1..] + [line];
      FirstMatchSnoc(ls[1..], line, find);
    }
  }

  /** A field is set from a line's match only while it is still empty. */
  function Fill(value: string, found: Option<string>): string {
    if value == "" && found.Some? then found.value else value
  }

  /** One line of the contact scan for one field: filling as the scan does
      keeps the field equal to the first match so far. */
  lemma FieldStep(value: string, ls: seq<string>, line: string, find: Matcher)
    requires NonEmptyMatches(find)
    requires value == FirstMatch(ls, find).GetOr("")
    ensures FirstMatch(ls + [line], find).GetOr("") == Fill(value, find(line))
  {
    FirstMatchSnoc(ls, line, find);
    FirstMatchNonEmpty(ls, find);
  }

  lemma {:induction false} FirstMatchNonEmpty(ls: seq<string>, find: Matcher)
    requires NonEmptyMatches(find)
    ensures FirstMatch(ls, find).Some? ==> FirstMatch(ls, find).value != ""
  {
    if ls != [] && find(ls[0]).None? {
      FirstMatchNonEmpty(ls[1..], find);
    }
  }

  /** `extract_resume_data(pdf_path)`, given the extracted lines: the
      dictionary is created and then filled phase by phase. */
  method ExtractResumeData(lines: seq<string>, emailOf: Matcher, phoneOf: Matcher) returns (data: ResumeData)
    requires EmailSearch(emailOf) && PhoneSearch(phoneOf)
    ensures data.Snapshot() == Extract(lines, emailOf, phoneOf)
  {
    data := new ResumeData();
    ContactNonEmpty(emailOf, phoneOf);
    ScanHeader(data, lines, emailOf, phoneOf);
    ghost var named := data.Snapshot();
    SegmentSections(data, lines);
    ghost var parsed := data.Snapshot();
    assert parsed == ApplyAll(named, Segment(lines));
    ApplyAllKeepsHeader(named, Segment(lines));
    assert parsed.title == "";
    FindTitle(data, lines);
    assert data.Snapshot() == parsed.(title := TitleOf(lines));
  }

  /** The two scans of the first lines (app.py:57-72) on the fresh dictionary. */
  method ScanHeader(data: ResumeData, lines: seq<string>, emailOf: Matcher, phoneOf: Matcher)
    requires NonEmptyMatches(emailOf) && NonEmptyMatches(phoneOf)
    requires NonEmptyMatches(LinkedInOf) && NonEmptyMatches(GitHubOf)
    requires data.Snapshot() == EmptyResume
    modifies data
    ensures data.Snapshot() == Contact(Slice(lines, 0, 20), emailOf, phoneOf).(name := NameOf(lines))
  {
    ScanContact(data, lines, emailOf, phoneOf);
    FindName(data, lines);
  }

  /** The contact scan of app.py:57-65: each field takes the first match in
      the first 20 lines and is never overwritten. */
  method ScanContact(data: ResumeData, lines: seq<string>, emailOf: Matcher, phoneOf: Matcher)
    requires NonEmptyMatches(emailOf) && NonEmptyMatches(phoneOf)
    requires NonEmptyMatches(LinkedInOf) && NonEmptyMatches(GitHubOf)
    requires data.email == "" && data.phone == "" && data.linkedin == "" && data.github == ""
    modifies data`email, data`phone, data`linkedin, data`github
    ensures data.email == FirstMatch(Slice(lines, 0, 20), emailOf).GetOr("")
    ensures data.phone == FirstMatch(Slice(lines, 0, 20), phoneOf).GetOr("")
    ensures data.linkedin == FirstMatch(Slice(lines, 0, 20), LinkedInOf).GetOr("")
    ensures data.github == FirstMatch(Slice(lines, 0, 20), GitHubOf).GetOr("")
  {
    var window := Slice(lines, 0, 20);
    var k := 0;
    while k < |window|
      invariant 0 <= k <= |window|
      invariant data.email == FirstMatch(window[..k], emailOf).GetOr("")
      invariant data.phone == FirstMatch(window[..k], phoneOf).GetOr("")
      invariant data.linkedin == FirstMatch(window[..k], LinkedInOf).GetOr("")
      invariant data.github == FirstMatch(window[..k], GitHubOf).GetOr("")
    {
      var line := window[k];
      assert window[..k + 1] == window[..k] + [line];
      FieldStep(data.email, window[..k], line, emailOf);
      FieldStep(data.phone, window[..k], line, phoneOf);
      FieldStep(data.linkedin, window[..k], line, LinkedInOf);
      FieldStep(data.github, window[..k], line, GitHubOf);
      ScanLine(data, line, emailOf, phoneOf);
      k := k + 1;
    }
    assert window[..k] == window;
  }

  /** One line of the contact scan (app.py:58-65): each field still empty
      takes what the line yields for it. */
  method ScanLine(data: ResumeData, line: string, emailOf: Matcher, phoneOf: Matcher)
    modifies data`email, data`phone, data`linkedin, data`github
    ensures data.email == Fill(old(data.email), emailOf(line))
    ensures data.phone == Fill(old(data.phone), phoneOf(line))
    ensures data.linkedin == Fill(old(data.linkedin), LinkedInOf(line))
    ensures data.github == Fill(old(data.github), GitHubOf(line))
  {
    var email := emailOf(line);
    if data.email == "" && email.Some? {
      data.email := email.value;
    }
    var phone := phoneOf(line);
    if data.phone == "" && phone.Some? {
      data.phone := phone.value;
    }
    data.linkedin := FillProfile(data.linkedin, line, LinkedInPrefix);
    data.github := FillProfile(data.github, line, GitHubPrefix);
  }

  /** A profile field of the contact scan: still empty and the pattern found
      in the line, it becomes `"https://"` and the match. */
  method FillProfile(value: string, line: string, prefix: string) returns (v: string)
    ensures v == Fill(value, ProfileUrl(line, prefix))
  {
    v := value;
    if value == "" {
      var m := ProfileMatch(line, prefix);
      if m.Some? {
        v := "https://" + m.value;
      }
    }
  }

  /** The name search of app.py:68-72. */
  method FindName(data: ResumeData, lines: seq<string>)
    requires data.name == ""
    modifies data`name
    ensures data.name == NameOf(lines)
  {
    var names := Slice(lines, 0, 10);
    var k := 0;
    while k < |names|
      invariant 0 <= k <= |names|
      invariant data.name == ""
      invariant FirstWith(names[k..], NameCandidate) == FirstWith(names, NameCandidate)
    {
      var line := names[k];
      assert names[k..][1..] == names[k + 1..];
      var t := Strip(line);
      if t != [] && |t| > 3 && |t| < 50 {
        if !HasDigit(line) && '@' !in line {
          data.name := t;
          break;
        }
      }
      k := k + 1;
    }
  }

  /** The section loop of app.py:75-110. */
  method SegmentSections(data: ResumeData, lines: seq<string>)
    modifies data
    ensures data.Snapshot() == ApplyAll(old(data.Snapshot()), Segment(lines))
  {
    var current: Option<Section> := None;
    var content: seq<string> := [];
    var i := 0;
    assert lines[0..] == lines;
    while i < |lines|
      invariant 0 <= i <= |lines|
      invariant ApplyAll(data.Snapshot(), Run(Classify, current, content, lines[i..])) ==
                ApplyAll(old(data.Snapshot()), Segment(lines))
    {
      var line := lines[i];
      assert lines[i..][0] == line && lines[i..][1..] == lines[i + 1..];
      var next := ClassifyLine(line);
      if next.Some? {
        ApplyAllAppend(data.Snapshot(), FlushIf(current, content), Run(Classify, next, [], lines[i + 1..]));
        if current.Some? && content != [] {
          ParseSection(data, current.value, content);
        }
        current := next;
        content := [];
      } else if !IsBlank(line) {
        content := content + [line];
      }
      i := i + 1;
    }
    if current.Some? && content != [] {
      ParseSection(data, current.value, content);
    }
  }

  /** The header tests of app.py:84-105, in their order. */
  method ClassifyLine(line: string) returns (kind: Option<Section>)
    ensures kind == Classify(line)
  {
    var lineLower := Normalize(line);
    ClassifyCases(lineLower);
    if MentionsAny(lineLower, ExperienceKeywords) {
      kind := Some(Experience);
    } else if MentionsAny(lineLower, EducationKeywords) {
      kind := Some(Education);
    } else if MentionsAny(lineLower, SkillsKeywords) {
      kind := Some(Skills);
    } else if MentionsAny(lineLower, ProjectsKeywords) {
      kind := Some(Projects);
    } else {
      kind := None;
    }
  }

  /** The title search of app.py:113-117, made only while the title is empty. */
  method FindTitle(data: ResumeData, lines: seq<string>)
    modifies data`title
    ensures data.title == if old(data.title) == "" then TitleOf(lines) else old(data.title)
  {
    if data.title == "" {
      var titles := Slice(lines, 1, 10);
      var k := 0;
      while k < |titles|
        invariant 0 <= k <= |titles|
        invariant data.title == ""
        invariant FirstWith(titles[k..], TitleCandidate) == FirstWith(titles, TitleCandidate)
      {
        var line := titles[k];
        assert titles[k..][1..] == titles[k + 1..];
        var t := Strip(line);
        if t != [] && |t| > 5 && '@' !in line && !HasDigit(Slice(line, 0, 3)) {
          data.title := t;
          break;
        }
        k := k + 1;
      }
    }
  }

  lemma ContactNonEmpty(emailOf: Matcher, phoneOf: Matcher)
    requires EmailSearch(emailOf) && PhoneSearch(phoneOf)
    ensures NonEmptyMatches(emailOf) && NonEmptyMatches(phoneOf)
    ensures NonEmptyMatches(LinkedInOf) && NonEmptyMatches(GitHubOf)
  {
    EmailNonEmpty(emailOf);
    PhoneNonEmpty(phoneOf);
  }

  lemma EmailNonEmpty(emailOf: Matcher)
    requires EmailSearch(emailOf)
    ensures NonEmptyMatches(emailOf)
  {
    forall line | emailOf(line).Some? ensures emailOf(line).value != "" {
      EmailMatchNonEmpty(emailOf, line);
    }
  }

  lemma PhoneNonEmpty(phoneOf: Matcher)
    requires PhoneSearch(phoneOf)
    ensures NonEmptyMatches(phoneOf)
  {
    PatternMinimums();
    forall line | phoneOf(line).Some? ensures phoneOf(line).value != "" {
      SoundMatchNonEmpty(PhonePattern, phoneOf, line);
    }
  }

  /** The header test, set by set, as the loop performs it. */
  lemma ClassifyCases(text: string)
    ensures FirstMentioned(text, Priority) ==
            if MentionsAny(text, Keywords(Experience)) then Some(Experience)
            else if MentionsAny(text, Keywords(Education)) then Some(Education)
            else if MentionsAny(text, Keywords(Skills)) then Some(Skills)
            else if MentionsAny(text, Keywords(Projects)) then Some(Projects)
            else None
  {
    assert Priority[0] == Experience && Priority[1..] == [Education, Skills, Projects];
    assert Priority[1..][1..] == [Skills, Projects];
    assert Priority[1..][1..][1..] == [Projects];
    assert Priority[1..][1..][1..][1..] == [];
  }

  lemma {:induction false} ApplyAllAppend(r: ResumeRecord, a: seq<Flush>, b: seq<Flush>)
    decreases |a|
    ensures ApplyAll(r, a + b) == ApplyAll(ApplyAll(r, a), b)
  {
    if a == [] {
      assert a + b == b;
    } else {
      assert (a + b)[0] == a[0] && (a + b)[1..] == a[1..] + b;
      ApplyAllAppend(ApplySection(r, a[0]), a[1..], b);
    }
  }

  // ---------------------------------------------------------------------------
  // What the record holds.

  /** `parse_section` touches only the four section fields: every header
      field keeps its value. */
  lemma {:induction false} ApplyAllKeepsHeader(r: ResumeRecord, fs: seq<Flush>)
    decreases |fs|
    ensures ApplyAll(r, fs).(experience := r.experience, education := r.education,
                             skills := r.skills, projects := r.projects) == r
  {
    if fs != [] {
      ApplyAllKeepsHeader(ApplySection(r, fs[0]), fs[1..]);
    }
  }

  /** The header fields of the record: contact fields, name and title come
      from the scans of the first lines alone, since `parse_section` never
      writes them; so the title is never set before its search runs, and
      `website` and `summary` keep their initial empty value. */
  lemma ExtractHeader(lines: seq<string>, emailOf: Matcher, phoneOf: Matcher)
    ensures Extract(lines, emailOf, phoneOf).email == FirstMatch(Slice(lines, 0, 20), emailOf).GetOr("")
    ensures Extract(lines, emailOf, phoneOf).phone == FirstMatch(Slice(lines, 0, 20), phoneOf).GetOr("")
    ensures Extract(lines, emailOf, phoneOf).linkedin == FirstMatch(Slice(lines, 0, 20), LinkedInOf).GetOr("")
    ensures Extract(lines, emailOf, phoneOf).github == FirstMatch(Slice(lines, 0, 20), GitHubOf).GetOr("")
    ensures Extract(lines, emailOf, phoneOf).name == NameOf(lines)
    ensures Extract(lines, emailOf, phoneOf).title == TitleOf(lines)
    ensures Extract(lines, emailOf, phoneOf).website == "" && Extract(lines, emailOf, phoneOf).summary == ""
  {
    var named := Contact(Slice(lines, 0, 20), emailOf, phoneOf).(name := NameOf(lines));
    ApplyAllKeepsHeader(named, Segment(lines));
  }

  /** Only the first 20 lines matter for the contact fields and only the
      first 10 for the name and the title: lines added after them change
      none of the header fields. */
  lemma HeaderWindow(lines: seq<string>, more: seq<string>, emailOf: Matcher, phoneOf: Matcher)
    requires |lines| >= 20
    ensures Extract(lines + more, emailOf, phoneOf).(experience := [], education := [], skills := [], projects := []) ==
            Extract(lines, emailOf, phoneOf).(experience := [], education := [], skills := [], projects := [])
  {
    assert Slice(lines + more, 0, 20) == Slice(lines, 0, 20);
    assert Slice(lines + more, 0, 10) == Slice(lines, 0, 10);
    assert Slice(lines + more, 1, 10) == Slice(lines, 1, 10);
    ExtractHeader(lines, emailOf, phoneOf);
    ExtractHeader(lines + more, emailOf, phoneOf);
  }

  /** A contact field is the first match in the first 20 lines: empty
      exactly when none of them matches, and otherwise the match of the
      first line that does. */
  lemma WindowMatch(lines: seq<string>, find: Matcher, v: string)
    requires NonEmptyMatches(find)
    requires v == FirstMatch(Slice(lines, 0, 20), find).GetOr("")
    ensures v == "" <==> forall i :: 0 <= i < |lines| && i < 20 ==> find(lines[i]).None?
    ensures v != "" ==> exists i :: 0 <= i < |lines| && i < 20 && find(lines[i]) == Some(v) &&
                                    forall j :: 0 <= j < i ==> find(lines[j]).None?
  {
    var window := Slice(lines, 0, 20);
    FirstMatchNone(window, find);
    FirstMatchNonEmpty(window, find);
    if v != "" {
      var k := FirstMatchSome(window, find);
      assert window[k] == lines[k];
      forall j | 0 <= j < k ensures find(lines[j]).None? {
        assert window[j] == lines[j];
      }
    }
  }

  /** The e-mail is the first match of its pattern, between word boundaries,
      in the first 20 lines: empty exactly when none of them holds one. */
  lemma EmailIsFirstMatch(lines: seq<string>, emailOf: Matcher, phoneOf: Matcher)
    requires EmailSearch(emailOf)
    ensures var email := Extract(lines, emailOf, phoneOf).email;
            (email == "" <==>
               forall i, m :: 0 <= i < |lines| && i < 20 ==> !FoundBetweenBoundaries(EmailPattern, m, lines[i])) &&
            (email != "" ==>
               exists i :: 0 <= i < |lines| && i < 20 && emailOf(lines[i]) == Some(email) &&
                           FoundBetweenBoundaries(EmailPattern, email, lines[i]) &&
                           forall j, m :: 0 <= j < i ==> !FoundBetweenBoundaries(EmailPattern, m, lines[j]))
  {
    EmailNonEmpty(emailOf);
    ExtractHeader(lines, emailOf, phoneOf);
    WindowMatch(lines, emailOf, Extract(lines, emailOf, phoneOf).email);
    forall i | 0 <= i < |lines|
      ensures emailOf(lines[i]).None? <==> forall m :: !FoundBetweenBoundaries(EmailPattern, m, lines[i])
    {
      EmailSearchNone(emailOf, lines[i]);
    }
  }

  /** The phone number is the first match of its pattern in the first 20
      lines: empty exactly when none of them holds one. */
  lemma PhoneIsFirstMatch(lines: seq<string>, emailOf: Matcher, phoneOf: Matcher)
    requires PhoneSearch(phoneOf)
    ensures var phone := Extract(lines, emailOf, phoneOf).phone;
            (phone == "" <==> forall i, m :: 0 <= i < |lines| && i < 20 ==> !FoundIn(PhonePattern, m, lines[i])) &&
            (phone != "" ==>
               exists i :: 0 <= i < |lines| && i < 20 && phoneOf(lines[i]) == Some(phone) &&
                           FoundIn(PhonePattern, phone, lines[i]) &&
                           forall j, m :: 0 <= j < i ==> !FoundIn(PhonePattern, m, lines[j]))
  {
    PhoneNonEmpty(phoneOf);
    ExtractHeader(lines, emailOf, phoneOf);
    WindowMatch(lines, phoneOf, Extract(lines, emailOf, phoneOf).phone);
    forall i | 0 <= i < |lines|
      ensures phoneOf(lines[i]).None? <==> forall m :: !FoundIn(PhonePattern, m, lines[i])
    {
      PhoneSearchNone(phoneOf, lines[i]);
    }
  }

  /** A match between word boundaries in any of the first 20 lines gives the
      record an e-mail. */
  lemma EmailFound(lines: seq<string>, emailOf: Matcher, phoneOf: Matcher, i: nat, m: string)
    requires EmailSearch(emailOf)
    requires i < |lines| && i < 20 && FoundBetweenBoundaries(EmailPattern, m, lines[i])
    ensures Extract(lines, emailOf, phoneOf).email != ""
  {
    EmailIsFirstMatch(lines, emailOf, phoneOf);
  }

  /** A match in any of the first 20 lines gives the record a phone number. */
  lemma PhoneFound(lines: seq<string>, emailOf: Matcher, phoneOf: Matcher, i: nat, m: string)
    requires PhoneSearch(phoneOf)
    requires i < |lines| && i < 20 && FoundIn(PhonePattern, m, lines[i])
    ensures Extract(lines, emailOf, phoneOf).phone != ""
  {
    PhoneIsFirstMatch(lines, emailOf, phoneOf);
  }

  /** A first line holding nothing but an address gives the record an e-mail. */
  lemma PlainEmailFound(lines: seq<string>, emailOf: Matcher, phoneOf: Matcher)
    requires EmailSearch(emailOf)
    requires |lines| > 0 && lines[0] == "a@x.co"
    ensures Extract(lines, emailOf, phoneOf).email != ""
  {
    PlainAddress();
    EmailFound(lines, emailOf, phoneOf, 0, "a@x.co");
  }

  lemma PlainAddress()
    ensures FoundBetweenBoundaries(EmailPattern, "a@x.co", "a@x.co")
  {
    var line := "a@x.co";
    assert LocalPart[1].0 <= 'a' <= LocalPart[1].1;
    assert DomainPart[1].0 <= 'x' <= DomainPart[1].1;
    assert forall i :: 0 <= i < 2 ==> TopLevelDomain[2].0 <= "co"[i] <= TopLevelDomain[2].1;
    assert "a" + ("@" + ("x" + ("." + "co"))) == line;
    EmailIntro("a", "x", "co");
    assert OccursAt(line, line, 0) && WordBoundary(line, 0) && WordBoundary(line, |line|);
  }

  /** A first line holding nothing but a number written 3-3-4 gives the record
      a phone number. */
  lemma PlainPhoneFound(lines: seq<string>, emailOf: Matcher, phoneOf: Matcher)
    requires PhoneSearch(phoneOf)
    requires |lines| > 0 && lines[0] == "555-123-4567"
    ensures Extract(lines, emailOf, phoneOf).phone != ""
  {
    PlainNumber();
    PhoneFound(lines, emailOf, phoneOf, 0, "555-123-4567");
  }

  lemma PlainNumber()
    ensures FoundIn(PhonePattern, "555-123-4567", "555-123-4567")
  {
    var line := "555-123-4567";
    assert "555" + ("-" + ("123" + ("-" + "4567"))) == line;
    PhoneIntro("555", "-", "123", "-", "4567");
    assert OccursAt(line, line, 0);
  }

  /** `ProfileUrl` in terms of the search it wraps. */
  lemma ProfileUrlOf(line: string, prefix: string)
    ensures ProfileUrl(line, prefix).None? <==> ProfileMatch(line, prefix).None?
    ensures ProfileUrl(line, prefix).Some? ==>
              ProfileUrl(line, prefix).value == "https://" + ProfileMatch(line, prefix).value
  {
  }

  /** The LinkedIn link is `https://` and the first profile match in the
      first 20 lines, or empty when none of them has one. */
  lemma LinkedInIsFirstMatch(lines: seq<string>, emailOf: Matcher, phoneOf: Matcher)
    ensures var url := Extract(lines, emailOf, phoneOf).linkedin;
            (url == "" <==> forall i :: 0 <= i < |lines| && i < 20 ==> ProfileMatch(lines[i], LinkedInPrefix).None?) &&
            (url != "" ==> exists i :: 0 <= i < |lines| && i < 20 && ProfileMatch(lines[i], LinkedInPrefix).Some? &&
                                       url == "https://" + ProfileMatch(lines[i], LinkedInPrefix).value &&
                                       forall j :: 0 <= j < i ==> ProfileMatch(lines[j], LinkedInPrefix).None?)
  {
    ExtractHeader(lines, emailOf, phoneOf);
    ProfileIsFirstMatch(lines, LinkedInPrefix, LinkedInOf, Extract(lines, emailOf, phoneOf).linkedin);
  }

  /** The GitHub link, in the same way. */
  lemma GitHubIsFirstMatch(lines: seq<string>, emailOf: Matcher, phoneOf: Matcher)
    ensures var url := Extract(lines, emailOf, phoneOf).github;
            (url == "" <==> forall i :: 0 <= i < |lines| && i < 20 ==> ProfileMatch(lines[i], GitHubPrefix).None?) &&
            (url != "" ==> exists i :: 0 <= i < |lines| && i < 20 && ProfileMatch(lines[i], GitHubPrefix).Some? &&
                                       url == "https://" + ProfileMatch(lines[i], GitHubPrefix).value &&
                                       forall j :: 0 <= j < i ==> ProfileMatch(lines[j], GitHubPrefix).None?)
  {
    ExtractHeader(lines, emailOf, phoneOf);
    ProfileIsFirstMatch(lines, GitHubPrefix, GitHubOf, Extract(lines, emailOf, phoneOf).github);
  }

  lemma ProfileIsFirstMatch(lines: seq<string>, prefix: string, find: Matcher, url: string)
    requires NonEmptyMatches(find)
    requires forall line :: find(line) == ProfileUrl(line, prefix)
    requires url == FirstMatch(Slice(lines, 0, 20), find).GetOr("")
    ensures url == "" <==> forall i :: 0 <= i < |lines| && i < 20 ==> ProfileMatch(lines[i], prefix).None?
    ensures url != "" ==> exists i :: 0 <= i < |lines| && i < 20 && ProfileMatch(lines[i], prefix).Some? &&
                                      url == "https://" + ProfileMatch(lines[i], prefix).value &&
                                      forall j :: 0 <= j < i ==> ProfileMatch(lines[j], prefix).None?
  {
    WindowMatch(lines, find, url);
    forall i | 0 <= i < |lines|
      ensures find(lines[i]).None? <==> ProfileMatch(lines[i], prefix).None?
      ensures find(lines[i]).Some? ==> find(lines[i]).value == "https://" + ProfileMatch(lines[i], prefix).value
    {
      ProfileUrlOf(lines[i], prefix);
    }
  }

  /** The name is the first of lines 0..9 that passes the name test,
      stripped, and empty when none does. */
  lemma NameRule(lines: seq<string>)
    ensures NameOf(lines) == "" <==> forall i :: 0 <= i < |lines| && i < 10 ==> !NameCandidate(lines[i])
    ensures NameOf(lines) != "" ==>
              exists i :: 0 <= i < |lines| && i < 10 && NameCandidate(lines[i]) && NameOf(lines) == Strip(lines[i]) &&
                          forall j :: 0 <= j < i ==> !NameCandidate(lines[j])
  {
    FirstWithWindow(lines, NameCandidate, 0, 10);
  }

  /** `FirstWith` on the window `lo..hi` of `lines`, in terms of the indices
      of `lines`. */
  lemma FirstWithWindow(lines: seq<string>, p: string -> bool, lo: nat, hi: nat)
    requires lo <= hi
    ensures FirstWith(Slice(lines, lo, hi), p).None? <==> forall i :: lo <= i < |lines| && i < hi ==> !p(lines[i])
    ensures FirstWith(Slice(lines, lo, hi), p).Some? ==>
              exists i :: lo <= i < |lines| && i < hi && p(lines[i]) &&
                          lines[i] == FirstWith(Slice(lines, lo, hi), p).value &&
                          forall j :: lo <= j < i ==> !p(lines[j])
  {
    var w := Slice(lines, lo, hi);
    FirstWithIsFirst(w, p);
    if FirstWith(w, p).Some? {
      var k :| 0 <= k < |w| && w[k] == FirstWith(w, p).value && p(w[k]) && forall j :: 0 <= j < k ==> !p(w[j]);
      assert lines[lo + k] == w[k];
      forall j | lo <= j < lo + k ensures !p(lines[j]) {
        assert lines[j] == w[j - lo];
      }
    } else {
      forall i | lo <= i < |lines| && i < hi ensures !p(lines[i]) {
        assert lines[i] == w[i - lo];
      }
    }
  }

  /** A name is 4 to 49 characters long, holds no digit and no `@`, and has
      no surrounding whitespace. */
  lemma NameShape(lines: seq<string>)
    ensures var name := NameOf(lines);
            name != "" ==> 3 < |name| < 50 && !HasDigit(name) && '@' !in name &&
                           !IsSpace(name[0]) && !IsSpace(name[|name| - 1])
  {
    var found := FirstWith(Slice(lines, 0, 10), NameCandidate);
    if found.Some? {
      FirstWithHolds(Slice(lines, 0, 10), NameCandidate);
      StripKeepsDigits(found.value);
      StripKeeps(found.value, '@');
    }
  }

  lemma {:induction false} FirstWithHolds(ls: seq<string>, p: string -> bool)
    ensures FirstWith(ls, p).Some? ==> p(FirstWith(ls, p).value)
  {
    if ls != [] && !p(ls[0]) {
      FirstWithHolds(ls[1..], p);
    }
  }

  /** The title is the first of lines 1..9 that passes the title test,
      stripped, and empty when none does; it is never compared with the name
      or with the section keywords. A title is longer than 5 characters,
      holds no `@`, and has no surrounding whitespace. */
  lemma TitleRule(lines: seq<string>)
    ensures TitleOf(lines) == "" <==> forall i :: 1 <= i < |lines| && i < 10 ==> !TitleCandidate(lines[i])
    ensures TitleOf(lines) != "" ==>
              exists i :: 1 <= i < |lines| && i < 10 && TitleCandidate(lines[i]) && TitleOf(lines) == Strip(lines[i]) &&
                          forall j :: 1 <= j < i ==> !TitleCandidate(lines[j])
    ensures var title := TitleOf(lines);
            title != "" ==> |title| > 5 && '@' !in title && !IsSpace(title[0]) && !IsSpace(title[|title| - 1])
  {
    FirstWithWindow(lines, TitleCandidate, 1, 10);
    var found := FirstWith(Slice(lines, 1, 10), TitleCandidate);
    if found.Some? {
      FirstWithHolds(Slice(lines, 1, 10), TitleCandidate);
      StripKeeps(found.value, '@');
    }
  }

  /** Nothing keeps the title apart from the name: a second line equal to
      the first, passing both tests, gives a record whose title is its name. */
  lemma TitleMayRepeatName(lines: seq<string>, emailOf: Matcher, phoneOf: Matcher)
    requires |lines| >= 2 && lines[1] == lines[0]
    requires NameCandidate(lines[0]) && TitleCandidate(lines[0])
    ensures Extract(lines, emailOf, phoneOf).title == Extract(lines, emailOf, phoneOf).name == Strip(lines[0])
  {
    ExtractHeader(lines, emailOf, phoneOf);
    assert Slice(lines, 0, 10)[0] == lines[0];
    assert Slice(lines, 1, 10)[0] == lines[1];
  }

  // ---------------------------------------------------------------------------
  // The entries.

  /** The contents of the flushes of one kind, in order. */
  function ContentsOf(fs: seq<Flush>, kind: Section): (cs: seq<seq<string>>)
    ensures |cs| <= |fs|
  {
    if fs == [] then []
    else (if fs[0].section == kind then [fs[0].content] else []) + ContentsOf(fs[1..], kind)
  }

  function JobEntry(block: seq<string>): Job {
    JobOf(StripAll(block))
  }

  function DegreeEntry(block: seq<string>): Degree {
    DegreeOf(StripAll(block))
  }

  function ProjectEntry(block: seq<string>): Project {
    ProjectOf(StripAll(block))
  }

  /** `f` applied to each of `cs`. */
  function Each<R>(cs: seq<seq<string>>, f: seq<string> -> R): seq<R> {
    if cs == [] then [] else [f(cs[0])] + Each(cs[1..], f)
  }

  /** `Each` is the map of `f` over `cs`. */
  lemma {:induction false} EachMaps<R>(cs: seq<seq<string>>, f: seq<string> -> R)
    ensures |Each(cs, f)| == |cs|
    ensures forall i :: 0 <= i < |cs| ==> Each(cs, f)[i] == f(cs[i])
  {
    if cs != [] {
      EachMaps(cs[1..], f);
      assert forall i :: 1 <= i < |cs| ==> cs[i] == cs[1..][i - 1];
    }
  }

  lemma EachCons<R>(c: seq<string>, cs: seq<seq<string>>, f: seq<string> -> R)
    ensures Each([c] + cs, f) == [f(c)] + Each(cs, f)
  {
    assert ([c] + cs)[1..] == cs;
  }

  /** A flush with at least one line and no blank line. */
  predicate Filled(f: Flush) {
    f.content != [] && forall i :: 0 <= i < |f.content| ==> !IsBlank(f.content[i])
  }

  predicate AllFilled(fs: seq<Flush>) {
    forall i :: 0 <= i < |fs| ==> Filled(fs[i])
  }

  lemma CleanIsFilled(classify: Classifier, fs: seq<Flush>)
    requires AllClean(classify, fs)
    ensures AllFilled(fs)
  {
    forall i | 0 <= i < |fs| ensures Filled(fs[i]) {
      assert Clean(classify, fs[i]);
    }
  }


  lemma AllFilledTail(fs: seq<Flush>)
    requires fs != [] && AllFilled(fs)
    ensures AllFilled(fs[1..])
  {
    forall i | 0 <= i < |fs[1..]| ensures Filled(fs[1..][i]) {
      assert fs[1..][i] == fs[i + 1];
    }
  }

  /** The experience list grows by one entry per experience flush the loop
      makes, in order. */
  lemma {:induction false} ApplyAllExperience(r: ResumeRecord, fs: seq<Flush>)
    requires AllFilled(fs)
    decreases |fs|
    ensures ApplyAll(r, fs).experience == r.experience + Each(ContentsOf(fs, Experience), JobEntry)
  {
    if fs == [] {
      assert r.experience + [] == r.experience;
    } else {
      AllFilledTail(fs);
      ApplyAllExperience(ApplySection(r, fs[0]), fs[1..]);
      ExperienceStep(r, fs, ApplyAll(r, fs).experience);
    }
  }

  lemma ExperienceStep(r: ResumeRecord, fs: seq<Flush>, after: seq<Job>)
    requires fs != [] && Filled(fs[0])
    requires after == ApplySection(r, fs[0]).experience + Each(ContentsOf(fs[1..], Experience), JobEntry)
    ensures after == r.experience + Each(ContentsOf(fs, Experience), JobEntry)
  {
    var f := fs[0];
    var rest := ContentsOf(fs[1..], Experience);
    var mid := if f.section == Experience then [JobEntry(f.content)] else [];
    assert ApplySection(r, f).experience == r.experience + mid by {
      if f.section == Experience {
        SingleBlock(f.content);
      }
    }
    assert Each(ContentsOf(fs, Experience), JobEntry) == mid + Each(rest, JobEntry) by {
      if f.section == Experience {
        EachCons(f.content, rest, JobEntry);
      } else {
        assert ContentsOf(fs, Experience) == rest;
      }
    }
    AppendAssoc(r.experience, mid, Each(rest, JobEntry));
  }

  lemma {:induction false} ApplyAllEducation(r: ResumeRecord, fs: seq<Flush>)
    requires AllFilled(fs)
    decreases |fs|
    ensures ApplyAll(r, fs).education == r.education + Each(ContentsOf(fs, Education), DegreeEntry)
  {
    if fs == [] {
      assert r.education + [] == r.education;
    } else {
      AllFilledTail(fs);
      ApplyAllEducation(ApplySection(r, fs[0]), fs[1..]);
      EducationStep(r, fs, ApplyAll(r, fs).education);
    }
  }

  lemma EducationStep(r: ResumeRecord, fs: seq<Flush>, after: seq<Degree>)
    requires fs != [] && Filled(fs[0])
    requires after == ApplySection(r, fs[0]).education + Each(ContentsOf(fs[1..], Education), DegreeEntry)
    ensures after == r.education + Each(ContentsOf(fs, Education), DegreeEntry)
  {
    var f := fs[0];
    var rest := ContentsOf(fs[1..], Education);
    var mid := if f.section == Education then [DegreeEntry(f.content)] else [];
    assert ApplySection(r, f).education == r.education + mid by {
      if f.section == Education {
        SingleBlock(f.content);
      }
    }
    assert Each(ContentsOf(fs, Education), DegreeEntry) == mid + Each(rest, DegreeEntry) by {
      if f.section == Education {
        EachCons(f.content, rest, DegreeEntry);
      } else {
        assert ContentsOf(fs, Education) == rest;
      }
    }
    AppendAssoc(r.education, mid, Each(rest, DegreeEntry));
  }

  lemma {:induction false} ApplyAllProjects(r: ResumeRecord, fs: seq<Flush>)
    requires AllFilled(fs)
    decreases |fs|
    ensures ApplyAll(r, fs).projects == r.projects + Each(ContentsOf(fs, Projects), ProjectEntry)
  {
    if fs == [] {
      assert r.projects + [] == r.projects;
    } else {
      AllFilledTail(fs);
      ApplyAllProjects(ApplySection(r, fs[0]), fs[1..]);
      ProjectsStep(r, fs, ApplyAll(r, fs).projects);
    }
  }

  lemma ProjectsStep(r: ResumeRecord, fs: seq<Flush>, after: seq<Project>)
    requires fs != [] && Filled(fs[0])
    requires after == ApplySection(r, fs[0]).projects + Each(ContentsOf(fs[1..], Projects), ProjectEntry)
    ensures after == r.projects + Each(ContentsOf(fs, Projects), ProjectEntry)
  {
    var f := fs[0];
    var rest := ContentsOf(fs[1..], Projects);
    var mid := if f.section == Projects then [ProjectEntry(f.content)] else [];
    assert ApplySection(r, f).projects == r.projects + mid by {
      if f.section == Projects {
        SingleBlock(f.content);
      }
    }
    assert Each(ContentsOf(fs, Projects), ProjectEntry) == mid + Each(rest, ProjectEntry) by {
      if f.section == Projects {
        EachCons(f.content, rest, ProjectEntry);
      } else {
        assert ContentsOf(fs, Projects) == rest;
      }
    }
    AppendAssoc(r.projects, mid, Each(rest, ProjectEntry));
  }

  /** The skills list is replaced at every skills flush: the last one wins. */
  lemma {:induction false} ApplyAllSkills(r: ResumeRecord, fs: seq<Flush>)
    decreases |fs|
    ensures var cs := ContentsOf(fs, Skills);
            ApplyAll(r, fs).skills == if cs == [] then r.skills else ParseSkills(cs[|cs| - 1])
  {
    if fs != [] {
      ApplyAllSkills(ApplySection(r, fs[0]), fs[1..]);
    }
  }

  /** The entries of the record, section by section: one job, degree or
      project per section of that kind, in document order, built from the
      section's non-blank lines, stripped; the skills are those of the last
      skills section, or none. */
  lemma ExtractEntries(lines: seq<string>, emailOf: Matcher, phoneOf: Matcher)
    ensures var r := Extract(lines, emailOf, phoneOf);
            var cs := ContentsOf(SectionsOf(lines), Experience);
            |r.experience| == |cs| && forall i :: 0 <= i < |cs| ==> r.experience[i] == JobOf(StripAll(cs[i]))
    ensures var r := Extract(lines, emailOf, phoneOf);
            var cs := ContentsOf(SectionsOf(lines), Education);
            |r.education| == |cs| && forall i :: 0 <= i < |cs| ==> r.education[i] == DegreeOf(StripAll(cs[i]))
    ensures var r := Extract(lines, emailOf, phoneOf);
            var cs := ContentsOf(SectionsOf(lines), Projects);
            |r.projects| == |cs| && forall i :: 0 <= i < |cs| ==> r.projects[i] == ProjectOf(StripAll(cs[i]))
    ensures var r := Extract(lines, emailOf, phoneOf);
            var cs := ContentsOf(SectionsOf(lines), Skills);
            r.skills == if cs == [] then [] else ParseSkills(cs[|cs| - 1])
  {
    var named := Contact(Slice(lines, 0, 20), emailOf, phoneOf).(name := NameOf(lines));
    var fs := Segment(lines);
    ExtractIsParsed(lines, emailOf, phoneOf);
    SegmentIsSections(lines);
    SegmentClean(lines);
    CleanIsFilled(Classify, fs);
    ApplyAllExperience(named, fs);
    ApplyAllEducation(named, fs);
    ApplyAllProjects(named, fs);
    ApplyAllSkills(named, fs);
    EmptyAppend(Each(ContentsOf(fs, Experience), JobEntry));
    EmptyAppend(Each(ContentsOf(fs, Education), DegreeEntry));
    EmptyAppend(Each(ContentsOf(fs, Projects), ProjectEntry));
    EachMaps(ContentsOf(fs, Experience), JobEntry);
    EachMaps(ContentsOf(fs, Education), DegreeEntry);
    EachMaps(ContentsOf(fs, Projects), ProjectEntry);
  }

  /** The four lists of the record are those the section loop leaves. */
  lemma ExtractIsParsed(lines: seq<string>, emailOf: Matcher, phoneOf: Matcher)
    ensures var parsed := ApplyAll(Contact(Slice(lines, 0, 20), emailOf, phoneOf).(name := NameOf(lines)), Segment(lines));
            var r := Extract(lines, emailOf, phoneOf);
            r.experience == parsed.experience && r.education == parsed.education &&
            r.skills == parsed.skills && r.projects == parsed.projects
  {
  }
}
