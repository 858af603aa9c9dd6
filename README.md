# Resume to portfolio: the resume-structuring core, modelled in Dafny

The application takes an uploaded PDF resume and turns the text of its lines
into a structured record. The record has the fields name, title, e-mail,
phone, LinkedIn, GitHub, website and summary, lists of jobs, degrees and
projects, and a list of skills. An HTML portfolio page is then rendered from
that record. This project models the part that builds the record from the
lines, plus the upload filter:

- `extract_resume_data` is modelled from the point where the text is split
  into lines. It runs four steps on the `data` dictionary:
  - the contact scan of the first 20 lines;
  - the name scan of the first 10 lines;
  - the section loop, which sorts the lines into experience, education,
    skills and projects buffers and hands each buffer to `parse_section`;
  - the title scan of lines 1 to 9.
- `parse_section` is modelled with its four grammars. Experience, education
  and projects fill their entries by position, and a blank line ends an
  entry. Skills split the space-joined buffer at delimiter characters.
- `allowed_file` is the extension test made on uploads.

The `data` dictionary is the class `Resume.ResumeData`, updated in place. The
two functions are the methods `Resume.ExtractResumeData` and
`Resume.ParseSection`, together with the loop methods they are split into.
Each method is proved to leave the state given by a pure specification
(`Resume.Extract`, `Resume.ApplySection`). The lemmas then state what that
state holds. Each specification also has an independent reference definition
and lemmas linking the two:

- `Sections.SectionsOf` cuts the lines at the header lines, against the
  loop's state machine `Sections.Segment`;
- `Records.Blocks` gives the maximal runs of non-blank lines, against each
  grammar's fold `Records.Scan`;
- `Records.JobOf`, `Records.DegreeOf` and `Records.ProjectOf` build one entry
  from one block.

Modules, one per file:

- `Wrappers`: `Option`.
- `Text`: ASCII versions of the string operations used (strip, lower,
  substring test, digit test, slicing).
- `Regex`: the e-mail and phone patterns as a small pattern syntax with its
  language.
- `Patterns`: the date test, the LinkedIn/GitHub search and the skills split.
- `Upload`: the extension test.
- `Records`: the `parse_section` grammars.
- `Sections`: header classification and the section loop.
- `Resume`: the record, the dictionary class, the methods and the end-to-end
  lemmas.

The e-mail and phone searches are parameters of type `string ->
Option<string>`, required to behave as `re.search` does
(`Regex.EmailSearch`, `Regex.PhoneSearch`). A search reports something
exactly when some substring of the line matches the pattern, and what it
reports is such a substring. For the e-mail pattern, the substring must also
have a word boundary (`\b`) at both ends. The date test and the
LinkedIn/GitHub searches are modelled concretely.

Where the code and the documented intent disagree, the model follows the
code:

- The intent is that the phone `(555) 123-4567` is captured. The phone
  pattern allows only `-` or `.` between digit groups, so no phone search can
  return anything for that line (`Regex.SpacedPhoneNotFound`).
- The intent is that skills are split at bullet and middle-dot
  characters. The delimiter class in the file holds instead the characters
  of those two symbols' UTF-8 bytes read as Windows-1252: U+00E2, U+20AC,
  U+00A2, U+00C2 and U+00B7, besides comma, semicolon and line feed. So the
  bullet U+2022 does not split, while the middle dot U+00B7 does
  (`Patterns.SkillDelimiters`).
- The intent calls the title a fallback, taken only if no title was set
  otherwise, and a line that is not the name. No other step ever writes the
  title, so the title scan always runs (`Resume.ExtractHeader`). The title
  is never compared with the name either (`Resume.TitleMayRepeatName`).

## Model

| member | source | states |
|---|---|---|
| Upload.AllowedFile | app.py:21-22 | a name is accepted exactly when it has a dot and the text after its last dot, lower-cased, is `pdf` |
| Upload.AllowedByExtension | app.py:21-22 | for any stem, `stem.ext` with a dot-free extension is accepted exactly when the extension is `pdf` ignoring case |
| Upload.NoDotRefused | app.py:21-22 | a name without a dot is refused |
| Text.Strip | app.py:69 | stripping gives the empty text exactly for a blank line, and otherwise text that neither starts nor ends with whitespace |
| Text.StripBounds | app.py:69 | the stripped text is the line minus a blank prefix and a blank suffix; with `Strip`'s contract, only the surrounding whitespace is removed |
| Text.StripKeepsDigits | app.py:69-70 | stripping neither adds nor removes digits |
| Regex.PatternMinimums | app.py:52-53 | a phone match has at least 10 characters, an e-mail match at least 6 |
| Regex.SoundMatchNonEmpty | app.py:58-61 | a sound search never returns the empty text, so "no match" and "empty field" coincide |
| Regex.PhoneSearchNone | app.py:60-61 | the phone search finds nothing in a line exactly when no substring of it matches the phone pattern |
| Regex.EmailSearchNone | app.py:58-59 | the e-mail search finds nothing in a line exactly when no substring between two word boundaries matches the e-mail pattern |
| Regex.EmailMatchNonEmpty | app.py:58-59 | what the e-mail search reports is never empty |
| Regex.PhoneMatchShape | app.py:53 | every phone match is at least ten characters long and holds no space |
| Regex.PhoneNeedsTenWithoutSpace | app.py:53 | a line in which every ten-character stretch holds a space yields no phone |
| Regex.SpacedPhoneNotFound | app.py:53 | the line `(555) 123-4567` yields no phone |
| Regex.PhoneIntro | app.py:53 | any three, three and four digits, separated by nothing, `-` or `.`, form a phone match |
| Regex.EmailIntro | app.py:52 | any local part, `@`, domain part, `.` and top-level domain of at least two characters, drawn from their classes, form an e-mail match |
| Regex.EmailAdmitsBar | app.py:52 | the top-level-domain class also admits a literal bar character |
| Patterns.DateLikeInContext | app.py:133-134 | the date test searches the whole line: a date line stays one whatever text surrounds it |
| Patterns.DateLikeCaseSensitive | app.py:133-134 | month names count only with their capital letter: in a line without capitals only four digits in a row make a date |
| Patterns.ProfileMatch | app.py:54-65 | the profile search succeeds exactly when the prefix occurs ignoring case with a handle character after it; it returns the leftmost occurrence, in the line's own case, followed by the longest run of handle characters |
| Patterns.SplitOn | app.py:173 | the split gives one more piece than there are delimiters, and no piece holds a delimiter |
| Patterns.SplitRoundTrip | app.py:173 | putting the delimiters back between the pieces gives the original text |
| Records.ScanIsBlocks | app.py:125-147 | the blank-line fold of every grammar builds one entry per maximal run of non-blank lines and never an empty entry |
| Records.BlocksCover | app.py:125-131 | the runs are non-empty and, laid end to end, are exactly the stripped non-blank lines |
| Records.BlocksSplit | app.py:125-131 | a blank line always ends a run: the runs of `a`, a blank line and `b` are the runs of `a` followed by those of `b`; so runs are maximal |
| Records.BlocksOfNonBlank | app.py:125-131 | lines without a blank one among them form a single run |
| Records.BuildJob | app.py:133-144 | within one run, the first date line is `dates` and takes no slot, later date lines are dropped, and the other lines fill title, company, then description in order |
| Records.BuildDegree | app.py:159-166 | within one run, the lines fill degree, institution, then details in order |
| Records.BuildProject | app.py:186-191 | within one run, the lines fill name, then description in order |
| Records.FirstDate | app.py:134-136 | the date is the first line passing the date test, and is absent exactly when none passes |
| Records.JobsByBlock | app.py:123-147 | the experience grammar returns one entry per run, in order, each as the run-level description gives it |
| Records.DegreesByBlock | app.py:149-169 | the education grammar returns one entry per run, in order |
| Records.ProjectsByBlock | app.py:176-194 | the projects grammar returns one entry per run, in order |
| Records.SingleBlock | app.py:106-194 | a buffer without blank lines, as the section loop builds it, gives exactly one entry |
| Records.SkillsShape | app.py:171-174 | a text is a skill exactly when it is a stripped fragment of the space-joined buffer longer than one character; a skill has no surrounding whitespace and no delimiter |
| Records.KeptIsLong | app.py:174 | every kept fragment is one of the fragments and longer than one character |
| Records.LongIsKept | app.py:174 | every fragment longer than one character is kept |
| Records.KeepLongAppend | app.py:174 | the filter keeps order and multiplicity: filtering a concatenation gives the concatenation of the filtered parts |
| Records.KeepLongOne | app.py:174 | a single fragment is kept exactly when it is longer than one character |
| Sections.ClassifyFirstMatch | app.py:84-105 | a line is a header exactly when its lower-cased, stripped text contains some keyword; its kind's keywords occur in it and no earlier kind's do |
| Sections.ExperienceWins | app.py:86 | a line that mentions "experience" is an experience header, whatever other keywords it holds |
| Sections.SegmentIsSections | app.py:83-110 | the loop's calls are exactly: for each header line, its kind and the non-blank lines up to the next header, when there are some |
| Sections.SegmentClean | app.py:83-110 | `parse_section` is called only with a non-empty buffer, which holds no blank line and no header line |
| Sections.PreambleIgnored | app.py:83-110 | lines before the first header have no effect on the calls |
| Resume.ResumeData.constructor | app.py:26-39 | the dictionary starts with every text field empty and every list empty |
| Resume.ParseSection | app.py:121-194 | each call extends the entry list of its kind by the grammar's entries, or replaces the skills, and changes nothing else |
| Resume.ParseExperienceInto | app.py:123-147 | the experience loop appends exactly the grammar's entries to the list |
| Resume.ParseEducationInto | app.py:149-169 | the education loop appends exactly the grammar's entries |
| Resume.ParseProjectsInto | app.py:176-194 | the projects loop appends exactly the grammar's entries |
| Resume.ExtractResumeData | app.py:26-119 | the dictionary the function returns is the record that `Extract` describes |
| Resume.ScanHeader | app.py:57-72 | on the fresh dictionary, the contact and name scans leave the four contact fields at their first matches and the name at `NameOf`, and every other field still empty |
| Resume.ScanContact | app.py:57-65 | after the contact loop each field is the first match among the first 20 lines, or empty |
| Resume.ScanLine | app.py:58-65 | one line sets each contact field that is still empty and that the line matches |
| Resume.FillProfile | app.py:62-65 | an empty profile field takes `https://` and the match; a set one is kept |
| Resume.FindName | app.py:68-72 | the name loop stops at the first candidate among lines 0 to 9 |
| Resume.SegmentSections | app.py:75-110 | the section loop makes exactly the calls of `parse_section` that `Segment` lists, in order |
| Resume.ClassifyLine | app.py:84-105 | the if-chain over the four keyword lists gives the classification of the line |
| Resume.FindTitle | app.py:113-117 | the title loop runs only on an empty title and stops at the first candidate among lines 1 to 9 |
| Resume.FieldStep | app.py:58-65 | filling a field only while it is empty keeps it equal to the first match so far |
| Resume.ExtractHeader | app.py:26-117 | `parse_section` never writes a header field: the title scan always runs, and website and summary stay empty |
| Resume.HeaderWindow | app.py:57-117 | lines after the first 20 change no contact, name or title field |
| Resume.EmailIsFirstMatch | app.py:57-59 | the e-mail is empty exactly when none of the first 20 lines holds a match of the pattern between word boundaries; otherwise it is the search's match in the lowest-indexed such line |
| Resume.PhoneIsFirstMatch | app.py:57-61 | the phone is empty exactly when no substring of the first 20 lines matches the pattern; otherwise it is the search's match in the lowest-indexed such line |
| Resume.EmailFound | app.py:57-59 | a match between word boundaries in any of the first 20 lines gives the record an e-mail |
| Resume.PhoneFound | app.py:57-61 | a match in any of the first 20 lines gives the record a phone number |
| Resume.PlainEmailFound | app.py:52-59 | a first line `a@x.co` gives the record an e-mail |
| Resume.PlainPhoneFound | app.py:53-61 | a first line `555-123-4567` gives the record a phone number |
| Resume.LinkedInIsFirstMatch | app.py:54-63 | the LinkedIn field is `https://` and the profile match of the lowest-indexed matching line among the first 20, or empty when none matches |
| Resume.GitHubIsFirstMatch | app.py:55-65 | the GitHub field, in the same way |
| Resume.NameRule | app.py:68-72 | the name is the stripped first candidate among lines 0 to 9, and empty exactly when there is none |
| Resume.NameShape | app.py:69-70 | a name is 4 to 49 characters long, holds no digit and no `@`, and has no surrounding whitespace |
| Resume.TitleRule | app.py:113-117 | the title is the stripped first candidate among lines 1 to 9, and empty exactly when there is none; a title is longer than 5 characters and holds no `@` |
| Resume.TitleMayRepeatName | app.py:68-117 | a second line equal to the first, passing both tests, makes the title equal to the name |
| Resume.ApplyAllExperience | app.py:106-147 | each experience call appends exactly one entry, in call order |
| Resume.ApplyAllEducation | app.py:106-169 | each education call appends exactly one entry, in call order |
| Resume.ApplyAllProjects | app.py:106-194 | each projects call appends exactly one entry, in call order |
| Resume.ApplyAllSkills | app.py:171-174 | the skills are those of the last skills call: a later section replaces an earlier one |
| Resume.ExtractEntries | app.py:75-194 | the record holds one job, degree or project per section of that kind, in document order, built from the section's stripped non-blank lines; the skills come from the last skills section, or are empty |

## Left out

- Reading the PDF with pdfplumber and joining its pages (app.py:41-47). The
  model starts from the list of lines.
- The Flask routes, file saving and downloads, and the HTML rendering in
  `generate_portfolio_html`. These are web and file plumbing.
- A search engine for the e-mail and phone patterns. The searches are
  parameters that report a match exactly when one exists (for the e-mail
  pattern, one between word boundaries). When a line holds several matches,
  which one `re.search` picks (leftmost start, backtracking order) is not
  modelled.
- Unicode. `strip`, `lower`, `isdigit`, the `\w` class and IGNORECASE are
  modelled on ASCII only; other characters are kept as they are and count as
  neither letters nor digits.
- Section names other than the four the loop uses. `section_type` is the
  enumeration `Sections.Section`, so the silent no-op of `parse_section` on
  an unknown name is not modelled.
- The structure of the two functions as single bodies. `extract_resume_data`
  is split into one method per phase (`ScanHeader`, `ScanContact`,
  `ScanLine`, `FindName`, `SegmentSections`, `ClassifyLine`, `FindTitle`),
  each proved on its own. `parse_section` gives each grammar its own method;
  its skills branch is one assignment from `Records.ParseSkills`, as in the
  source.
- The error reply that the upload route sends when extraction raises an
  exception.
