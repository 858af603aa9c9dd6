/**
 * The record grammars of `parse_section` (app.py:121-194): how the buffered
 * lines of an experience, education or projects section become a list of
 * entries, and how the lines of a skills section become a list of skills.
 *
 * The three entry grammars share one shape: every line is stripped, a blank
 * line closes the record being built (which is kept only if some field is
 * set), any other line is folded into the record, and the record still open
 * at the end is kept on the same condition. `Scan` is that shape as a fold
 * over the lines; `Blocks` is the independent description (the maximal runs
 * of non-blank lines), and `ScanIsBlocks` connects the two.
 */
module Records {
  import opened Wrappers
  import opened Text
  import opened Patterns

  // ---------------------------------------------------------------------------
  // Entries. A dictionary key that may be missing is an `Option`; the
  // `description` / `details` lists are created on their first line, so an
  // empty sequence stands for the missing key.

  datatype Job = Job(title: Option<string>, company: Option<string>, dates: Option<string>,
                     description: seq<string>)
  datatype Degree = Degree(degree: Option<string>, institution: Option<string>, details: seq<string>)
  datatype Project = Project(name: Option<string>, description: seq<string>)

  /** `{}`, the record each grammar starts from. */
  const NoJob: Job := Job(None, None, None, [])
  const NoDegree: Degree := Degree(None, None, [])
  const NoProject: Project := Project(None, [])

  /** A key that is missing or holds the empty string: the test the grammars
      make before filling a slot. */
  predicate Unset(o: Option<string>) {
    o.None? || o.value == ""
  }

  /** One stripped, non-blank line of an experience section (app.py:133-144):
      a date line fills `dates` if it is still missing and is otherwise
      dropped; any other line fills title, then company, then the description. */
  function AddJobLine(job: Job, line: string): Job {
    if DateLike(line) then
      if job.dates.None? then job.(dates := Some(line)) else job
    else if Unset(job.title) then job.(title := Some(line))
    else if Unset(job.company) then job.(company := Some(line))
    else job.(description := job.description + [line])
  }

  /** One stripped, non-blank line of an education section (app.py:159-166). */
  function AddDegreeLine(edu: Degree, line: string): Degree {
    if Unset(edu.degree) then edu.(degree := Some(line))
    else if Unset(edu.institution) then edu.(institution := Some(line))
    else edu.(details := edu.details + [line])
  }

  /** One stripped, non-blank line of a projects section (app.py:186-191). */
  function AddProjectLine(project: Project, line: string): Project {
    if Unset(project.name) then project.(name := Some(line))
    else project.(description := project.description + [line])
  }

  /** Adding a line never leaves a record empty, so a record that has seen a
      line is always kept. */
  ghost predicate NeverEmpties<R(!new)>(add: (R, string) -> R, empty: R) {
    forall r: R, line: string :: add(r, line) != empty
  }

  lemma GrammarsNeverEmpty()
    ensures NeverEmpties(AddJobLine, NoJob)
    ensures NeverEmpties(AddDegreeLine, NoDegree)
    ensures NeverEmpties(AddProjectLine, NoProject)
  {
  }

  // ---------------------------------------------------------------------------
  // The fold.

  /** The entries appended so far and the record being built. */
  datatype Progress<R> = Progress(done: seq<R>, current: R)

  /** The state of a grammar's loop after the given lines (app.py:125-144). */
  function Scan<R(==,!new)>(add: (R, string) -> R, empty: R, content: seq<string>): Progress<R>
  {
    if content == [] then Progress([], empty)
    else
      var p := Scan(add, empty, content[..|content| - 1]);
      Step(add, empty, p, content[|content| - 1])
  }

  /** One iteration of a grammar's loop. */
  function Step<R(==,!new)>(add: (R, string) -> R, empty: R, p: Progress<R>, raw: string): Progress<R> {
    var line := Strip(raw);
    if line == [] then
      if p.current != empty then Progress(p.done + [p.current], empty) else p
    else Progress(p.done, add(p.current, line))
  }

  /** The loop's state after one more line. */
  lemma ScanSnoc<R(!new)>(add: (R, string) -> R, empty: R, content: seq<string>, i: nat)
    requires i < |content|
    ensures Scan(add, empty, content[..i + 1]) == Step(add, empty, Scan(add, empty, content[..i]), content[i])
  {
    assert content[..i + 1][..i] == content[..i];
  }

  /** The entries a grammar appends for a buffer: the scan's entries and, if
      it is not empty, the record still open at the end (app.py:146-147). */
  function Collect<R(==,!new)>(add: (R, string) -> R, empty: R, content: seq<string>): seq<R> {
    var p := Scan(add, empty, content);
    p.done + (if p.current != empty then [p.current] else [])
  }

  /** A record built from a whole block of lines, first line first. */
  function Build<R>(add: (R, string) -> R, empty: R, block: seq<string>): R {
    if block == [] then empty else add(Build(add, empty, block[..|block| - 1]), block[|block| - 1])
  }

  function BuildEach<R>(add: (R, string) -> R, empty: R, blocks: seq<seq<string>>): (r: seq<R>)
    ensures |r| == |blocks|
    ensures forall i :: 0 <= i < |blocks| ==> r[i] == Build(add, empty, blocks[i])
  {
    seq(|blocks|, i requires 0 <= i < |blocks| => Build(add, empty, blocks[i]))
  }

  // ---------------------------------------------------------------------------
  // Blocks: the reference description of where records begin and end.

  /** The closed runs of non-blank lines seen so far (each line stripped) and
      the run still open. */
  datatype Runs = Runs(closed: seq<seq<string>>, open: seq<string>)

  function RunsOf(content: seq<string>): (r: Runs)
    ensures forall i :: 0 <= i < |r.closed| ==> r.closed[i] != [] && NoEmptyLine(r.closed[i])
    ensures NoEmptyLine(r.open)
  {
    if content == [] then Runs([], [])
    else
      var r := RunsOf(content[..|content| - 1]);
      var line := Strip(content[|content| - 1]);
      if line == [] then
        if r.open != [] then Runs(r.closed + [r.open], []) else r
      else Runs(r.closed, r.open + [line])
  }

  /** The maximal runs of non-blank lines of `content`, in order, each line
      stripped. */
  function Blocks(content: seq<string>): seq<seq<string>> {
    var r := RunsOf(content);
    r.closed + (if r.open != [] then [r.open] else [])
  }

  function StripAll(content: seq<string>): (r: seq<string>)
    ensures |r| == |content|
    ensures forall i :: 0 <= i < |content| ==> r[i] == Strip(content[i])
  {
    seq(|content|, i requires 0 <= i < |content| => Strip(content[i]))
  }

  lemma {:induction false} ScanIsRuns<R(!new)>(add: (R, string) -> R, empty: R, content: seq<string>)
    requires NeverEmpties(add, empty)
    ensures Scan(add, empty, content) ==
            Progress(BuildEach(add, empty, RunsOf(content).closed), Build(add, empty, RunsOf(content).open))
  {
    if content != [] {
      var init := content[..|content| - 1];
      ScanIsRuns(add, empty, init);
      var r := RunsOf(init);
      var line := Strip(content[|content| - 1]);
      assert Build(add, empty, r.open) != empty <==> r.open != [];
      if line == [] {
        if r.open != [] {
          assert BuildEach(add, empty, r.closed + [r.open]) ==
                 BuildEach(add, empty, r.closed) + [Build(add, empty, r.open)];
        }
      } else {
        assert (r.open + [line])[..|r.open|] == r.open;
      }
    }
  }

  /** The fold is the block description: with grammars that never empty a
      record, the entries are exactly one record per maximal run of non-blank
      lines, built from that run's stripped lines, in order. */
  lemma ScanIsBlocks<R(!new)>(add: (R, string) -> R, empty: R, content: seq<string>)
    requires NeverEmpties(add, empty)
    ensures Collect(add, empty, content) == BuildEach(add, empty, Blocks(content))
  {
    ScanIsRuns(add, empty, content);
    var r := RunsOf(content);
    assert Build(add, empty, r.open) != empty <==> r.open != [];
    if r.open != [] {
      assert BuildEach(add, empty, r.closed + [r.open]) ==
             BuildEach(add, empty, r.closed) + [Build(add, empty, r.open)];
    } else {
      assert r.closed + [] == r.closed;
    }
  }

  lemma {:induction false} RunsOfNonBlank(content: seq<string>)
    requires forall i :: 0 <= i < |content| ==> !IsBlank(content[i])
    ensures RunsOf(content) == Runs([], StripAll(content))
  {
    if content != [] {
      var init := content[..|content| - 1];
      RunsOfNonBlank(init);
      StripAllSnoc(init, content[|content| - 1]);
      assert init + [content[|content| - 1]] == content;
    }
  }

  lemma StripAllSnoc(init: seq<string>, last: string)
    ensures StripAll(init + [last]) == StripAll(init) + [Strip(last)]
  {
    var a := StripAll(init + [last]);
    var b := StripAll(init) + [Strip(last)];
    assert |a| == |b|;
    forall i | 0 <= i < |a| ensures a[i] == b[i] {
      if i < |init| {
        assert (init + [last])[i] == init[i];
      }
    }
  }

  /** A buffer without blank lines is a single block, so it yields exactly
      one entry (none if it is empty). */
  lemma BlocksOfNonBlank(content: seq<string>)
    requires forall i :: 0 <= i < |content| ==> !IsBlank(content[i])
    ensures Blocks(content) == if content == [] then [] else [StripAll(content)]
  {
    RunsOfNonBlank(content);
  }

  /** Every block is non-empty, and together the blocks hold exactly the
      non-blank lines of the buffer, stripped, in order. */
  lemma {:induction false} BlocksCover(content: seq<string>)
    ensures forall i :: 0 <= i < |Blocks(content)| ==> Blocks(content)[i] != []
    ensures Flatten(Blocks(content)) == NonBlankStripped(content)
  {
    RunsCover(content);
    var r := RunsOf(content);
    if r.open != [] {
      FlattenSnoc(r.closed, r.open);
    } else {
      assert r.closed + [] == r.closed;
    }
  }

  /** A blank line always ends a block: the blocks of `a`, a blank line and
      then `b` are the blocks of `a` followed by those of `b`. With
      `BlocksOfNonBlank` this determines `Blocks` completely: the blocks are
      the maximal runs of non-blank lines, and no two are adjacent. */
  lemma BlocksSplit(a: seq<string>, gap: string, b: seq<string>)
    requires IsBlank(gap)
    ensures Blocks(a + [gap] + b) == Blocks(a) + Blocks(b)
  {
    var x := a + [gap];
    assert x[..|x| - 1] == a && x[|x| - 1] == gap;
    assert RunsOf(x) == Runs(Blocks(a), []) by {
      if RunsOf(a).open == [] {
        assert RunsOf(a).closed + [] == RunsOf(a).closed;
      }
    }
    RunsAfterClosed(x, b);
    var r := RunsOf(b);
    AppendAssoc(Blocks(a), r.closed, if r.open != [] then [r.open] else []);
  }

  /** After a document whose last run is closed, the runs of what follows
      are added on unchanged. */
  lemma {:induction false} RunsAfterClosed(x: seq<string>, b: seq<string>)
    requires RunsOf(x).open == []
    decreases |b|
    ensures RunsOf(x + b) == Runs(RunsOf(x).closed + RunsOf(b).closed, RunsOf(b).open)
  {
    if b == [] {
      assert x + b == x;
      assert RunsOf(x).closed + [] == RunsOf(x).closed;
    } else {
      var init := b[..|b| - 1];
      assert (x + b)[..|x + b| - 1] == x + init;
      assert (x + b)[|x + b| - 1] == b[|b| - 1];
      RunsAfterClosed(x, init);
      var r := RunsOf(init);
      if Strip(b[|b| - 1]) == [] && r.open != [] {
        AppendAssoc(RunsOf(x).closed, r.closed, [r.open]);
      }
    }
  }

  lemma {:induction false} RunsCover(content: seq<string>)
    ensures Flatten(RunsOf(content).closed) + RunsOf(content).open == NonBlankStripped(content)
  {
    if content != [] {
      var init := content[..|content| - 1];
      RunsCover(init);
      var r := RunsOf(init);
      var line := Strip(content[|content| - 1]);
      if line == [] {
        if r.open != [] {
          FlattenSnoc(r.closed, r.open);
        }
      }
    }
  }

  function Flatten(blocks: seq<seq<string>>): seq<string> {
    if blocks == [] then [] else Flatten(blocks[..|blocks| - 1]) + blocks[|blocks| - 1]
  }

  lemma FlattenSnoc(blocks: seq<seq<string>>, b: seq<string>)
    ensures Flatten(blocks + [b]) == Flatten(blocks) + b
  {
    assert (blocks + [b])[..|blocks|] == blocks;
  }

  /** The non-blank lines of a buffer, stripped, in order. */
  function NonBlankStripped(content: seq<string>): seq<string> {
    if content == [] then []
    else
      var line := Strip(content[|content| - 1]);
      NonBlankStripped(content[..|content| - 1]) + (if line == [] then [] else [line])
  }

  // ---------------------------------------------------------------------------
  // What one block becomes, stated without the fold.

  /** The `k`-th element, if there is one. */
  function Nth(s: seq<string>, k: nat): (r: Option<string>)
    ensures r.Some? <==> k < |s|
    ensures r.Some? ==> r.value == s[k]
  {
    if k < |s| then Some(s[k]) else None
  }

  /** The lines of a block that do not pass the date test, in order. */
  function NonDates(block: seq<string>): (r: seq<string>)
    ensures forall i :: 0 <= i < |r| ==> r[i] in block && !DateLike(r[i])
  {
    if block == [] then []
    else
      var line := block[|block| - 1];
      NonDates(block[..|block| - 1]) + (if DateLike(line) then [] else [line])
  }

  /** The first line of a block that passes the date test. */
  function FirstDate(block: seq<string>): (r: Option<string>)
    ensures r.None? <==> forall i :: 0 <= i < |block| ==> !DateLike(block[i])
    ensures r.Some? ==> exists i :: 0 <= i < |block| && block[i] == r.value && DateLike(block[i]) &&
                                    forall j :: 0 <= j < i ==> !DateLike(block[j])
  {
    if block == [] then None
    else
      var init := block[..|block| - 1];
      var line := block[|block| - 1];
      var r := FirstDate(init);
      if r.Some? then r else if DateLike(line) then Some(line) else None
  }

  /** The experience entry of a block: its first date line is `dates`, and the
      other lines are title, company and then description, in that order. */
  function JobOf(block: seq<string>): Job {
    var rest := NonDates(block);
    Job(Nth(rest, 0), Nth(rest, 1), FirstDate(block), Slice(rest, 2, |rest|))
  }

  /** The education entry of a block: degree, institution, then details. */
  function DegreeOf(block: seq<string>): Degree {
    Degree(Nth(block, 0), Nth(block, 1), Slice(block, 2, |block|))
  }

  /** The projects entry of a block: name, then description. */
  function ProjectOf(block: seq<string>): Project {
    Project(Nth(block, 0), Slice(block, 1, |block|))
  }

  /** A block's lines are stripped and non-blank, hence never empty. */
  predicate NoEmptyLine(block: seq<string>) {
    forall i :: 0 <= i < |block| ==> block[i] != []
  }

  lemma {:induction false} BuildJob(block: seq<string>)
    requires NoEmptyLine(block)
    ensures Build(AddJobLine, NoJob, block) == JobOf(block)
  {
    if block != [] {
      var init := block[..|block| - 1];
      var line := block[|block| - 1];
      BuildJob(init);
      var rest := NonDates(init);
      assert forall i :: 0 <= i < |rest| ==> rest[i] != [] by {
        forall i | 0 <= i < |rest| ensures rest[i] != [] {
          var k :| 0 <= k < |init| && init[k] == rest[i];
        }
      }
      if !DateLike(line) {
        var rest' := rest + [line];
        assert NonDates(block) == rest';
        if |rest| >= 2 {
          assert Slice(rest', 2, |rest'|) == Slice(rest, 2, |rest|) + [line];
        }
      }
    }
  }

  lemma {:induction false} BuildDegree(block: seq<string>)
    requires NoEmptyLine(block)
    ensures Build(AddDegreeLine, NoDegree, block) == DegreeOf(block)
  {
    if block != [] {
      var init := block[..|block| - 1];
      BuildDegree(init);
      if |init| >= 2 {
        assert Slice(block, 2, |block|) == Slice(init, 2, |init|) + [block[|block| - 1]];
      }
    }
  }

  lemma {:induction false} BuildProject(block: seq<string>)
    requires NoEmptyLine(block)
    ensures Build(AddProjectLine, NoProject, block) == ProjectOf(block)
  {
    if block != [] {
      var init := block[..|block| - 1];
      BuildProject(init);
      if |init| >= 1 {
        assert Slice(block, 1, |block|) == Slice(init, 1, |init|) + [block[|block| - 1]];
      }
    }
  }

  // ---------------------------------------------------------------------------
  // The three entry grammars.

  function ParseExperience(content: seq<string>): seq<Job> {
    Collect(AddJobLine, NoJob, content)
  }

  function ParseEducation(content: seq<string>): seq<Degree> {
    Collect(AddDegreeLine, NoDegree, content)
  }

  function ParseProjects(content: seq<string>): seq<Project> {
    Collect(AddProjectLine, NoProject, content)
  }

  lemma BlockLinesNonEmpty(content: seq<string>, i: nat)
    requires i < |Blocks(content)|
    ensures NoEmptyLine(Blocks(content)[i])
  {
    var r := RunsOf(content);
    if i < |r.closed| {
      assert Blocks(content)[i] == r.closed[i];
    }
  }

  /** Experience entries: one per block, each as `JobOf` describes it. */
  lemma JobsByBlock(content: seq<string>)
    ensures |ParseExperience(content)| == |Blocks(content)|
    ensures forall i :: 0 <= i < |Blocks(content)| ==> ParseExperience(content)[i] == JobOf(Blocks(content)[i])
  {
    GrammarsNeverEmpty();
    ScanIsBlocks(AddJobLine, NoJob, content);
    forall i | 0 <= i < |Blocks(content)| ensures ParseExperience(content)[i] == JobOf(Blocks(content)[i]) {
      BlockLinesNonEmpty(content, i);
      BuildJob(Blocks(content)[i]);
    }
  }

  /** Education entries: one per block, each as `DegreeOf` describes it. */
  lemma DegreesByBlock(content: seq<string>)
    ensures |ParseEducation(content)| == |Blocks(content)|
    ensures forall i :: 0 <= i < |Blocks(content)| ==> ParseEducation(content)[i] == DegreeOf(Blocks(content)[i])
  {
    GrammarsNeverEmpty();
    ScanIsBlocks(AddDegreeLine, NoDegree, content);
    forall i | 0 <= i < |Blocks(content)| ensures ParseEducation(content)[i] == DegreeOf(Blocks(content)[i]) {
      BlockLinesNonEmpty(content, i);
      BuildDegree(Blocks(content)[i]);
    }
  }

  /** Projects entries: one per block, each as `ProjectOf` describes it. */
  lemma ProjectsByBlock(content: seq<string>)
    ensures |ParseProjects(content)| == |Blocks(content)|
    ensures forall i :: 0 <= i < |Blocks(content)| ==> ParseProjects(content)[i] == ProjectOf(Blocks(content)[i])
  {
    GrammarsNeverEmpty();
    ScanIsBlocks(AddProjectLine, NoProject, content);
    forall i | 0 <= i < |Blocks(content)| ensures ParseProjects(content)[i] == ProjectOf(Blocks(content)[i]) {
      BlockLinesNonEmpty(content, i);
      BuildProject(Blocks(content)[i]);
    }
  }

  /** A buffer without blank lines yields exactly one entry of each grammar,
      built from all of its lines. */
  lemma SingleBlock(content: seq<string>)
    requires content != []
    requires forall i :: 0 <= i < |content| ==> !IsBlank(content[i])
    ensures ParseExperience(content) == [JobOf(StripAll(content))]
    ensures ParseEducation(content) == [DegreeOf(StripAll(content))]
    ensures ParseProjects(content) == [ProjectOf(StripAll(content))]
  {
    BlocksOfNonBlank(content);
    JobsByBlock(content);
    DegreesByBlock(content);
    ProjectsByBlock(content);
  }

  // ---------------------------------------------------------------------------
  // Skills: the buffer joined with spaces, split at the delimiters, fragments stripped,
  // and kept when longer than one character (app.py:172-174).

  function JoinWithSpace(content: seq<string>): string {
    if content == [] then []
    else if |content| == 1 then content[0]
    else content[0] + " " + JoinWithSpace(content[1..])
  }

  /** The condition of the comprehension at app.py:174, applied to already
      stripped fragments: a fragment is kept when it is non-empty and longer
      than one character. */
  function KeepLong(fragments: seq<string>): (r: seq<string>)
    ensures forall i :: 0 <= i < |r| ==> |r[i]| > 1
  {
    if fragments == [] then []
    else
      var t := fragments[|fragments| - 1];
      KeepLong(fragments[..|fragments| - 1]) + (if t != [] && |t| > 1 then [t] else [])
  }

  /** The filter keeps order and multiplicity: filtering two lists one after
      the other gives the two filtered lists one after the other. */
  lemma {:induction false} KeepLongAppend(a: seq<string>, b: seq<string>)
    decreases |b|
    ensures KeepLong(a + b) == KeepLong(a) + KeepLong(b)
  {
    if b == [] {
      assert a + b == a;
      assert KeepLong(a) + [] == KeepLong(a);
    } else {
      var init := b[..|b| - 1];
      var t := b[|b| - 1];
      assert (a + b)[..|a + b| - 1] == a + init;
      assert (a + b)[|a + b| - 1] == t;
      KeepLongAppend(a, init);
      AppendAssoc(KeepLong(a), KeepLong(init), if t != [] && |t| > 1 then [t] else []);
    }
  }

  /** A single fragment is kept exactly when it is longer than one character. */
  lemma KeepLongOne(t: string)
    ensures KeepLong([t]) == if |t| > 1 then [t] else []
  {
    assert [t][..0] == [];
  }

  /** The split fragments of the space-joined buffer. */
  function SkillFragments(content: seq<string>): seq<string> {
    SplitOn(JoinWithSpace(content), SkillDelimiters)
  }

  function ParseSkills(content: seq<string>): seq<string> {
    KeepLong(StripAll(SkillFragments(content)))
  }

  lemma {:induction false} KeptIsLong(fragments: seq<string>, s: string) returns (i: nat)
    requires s in KeepLong(fragments)
    ensures i < |fragments| && fragments[i] == s && |s| > 1
  {
    var init := fragments[..|fragments| - 1];
    var t := fragments[|fragments| - 1];
    var tail := if t != [] && |t| > 1 then [t] else [];
    assert KeepLong(fragments) == KeepLong(init) + tail;
    if s in KeepLong(init) {
      i := KeptIsLong(init, s);
      assert init[i] == fragments[i];
    } else {
      i := |init|;
    }
  }

  lemma {:induction false} LongIsKept(fragments: seq<string>, i: nat)
    requires i < |fragments| && |fragments[i]| > 1
    ensures fragments[i] in KeepLong(fragments)
  {
    var init := fragments[..|fragments| - 1];
    var t := fragments[|fragments| - 1];
    var tail := if t != [] && |t| > 1 then [t] else [];
    assert KeepLong(fragments) == KeepLong(init) + tail;
    if i < |init| {
      assert init[i] == fragments[i];
      LongIsKept(init, i);
    }
  }

  /** Every skill is a fragment of the joined buffer between two delimiters,
      stripped: at least two characters long, without whitespace at either end
      and holding no delimiter; and every such stripped fragment of two or
      more characters is a skill. */
  lemma SkillsShape(content: seq<string>, s: string)
    ensures s in ParseSkills(content) <==>
            exists i :: 0 <= i < |SkillFragments(content)| && Strip(SkillFragments(content)[i]) == s && |s| > 1
    ensures s in ParseSkills(content) ==>
            |s| > 1 && !IsSpace(s[0]) && !IsSpace(s[|s| - 1]) &&
            forall k :: 0 <= k < |s| ==> s[k] !in SkillDelimiters
  {
    var pieces := SkillFragments(content);
    var stripped := StripAll(pieces);
    if s in ParseSkills(content) {
      var i := KeptIsLong(stripped, s);
      assert Strip(pieces[i]) == s;
      forall k | 0 <= k < |s| ensures s[k] !in SkillDelimiters {
        StripWithin(pieces[i], s[k]);
      }
    }
    if exists i :: 0 <= i < |pieces| && Strip(pieces[i]) == s && |s| > 1 {
      var i :| 0 <= i < |pieces| && Strip(pieces[i]) == s && |s| > 1;
      LongIsKept(stripped, i);
    }
  }
}
