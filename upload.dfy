/** The upload filter: only files whose extension is `pdf` are accepted. */
module Upload {
  import opened Wrappers
  import opened Text

  /** The index of the last `.` of `s`, if it has one: where a split from the
      right at most once cuts the name. */
  function LastDot(s: string): (r: Option<nat>)
    ensures r.Some? ==> r.value < |s| && s[r.value] == '.' &&
                        forall j :: r.value < j < |s| ==> s[j] != '.'
    ensures r.None? ==> forall j :: 0 <= j < |s| ==> s[j] != '.'
  {
    if s == [] then None
    else if s[|s| - 1] == '.' then Some(|s| - 1)
    else LastDot(s[..|s| - 1])
  }

  /** The upload test of app.py:21-22: the name has a dot and the text after
      its last dot is `pdf` in any case. */
  function AllowedFile(filename: string): (ok: bool)
    ensures ok <==> exists i :: 0 <= i < |filename| && filename[i] == '.' &&
                               (forall j :: i < j < |filename| ==> filename[j] != '.') &&
                               Lower(filename[i + 1..]) == "pdf"
  {
    match LastDot(filename)
    case None => false
    case Some(i) => Lower(filename[i + 1..]) == "pdf"
  }

  /** A name is accepted exactly when its final extension, whatever comes
      before it, is `pdf` ignoring case. */
  lemma AllowedByExtension(stem: string, ext: string)
    requires forall j :: 0 <= j < |ext| ==> ext[j] != '.'
    ensures AllowedFile(stem + "." + ext) <==> Lower(ext) == "pdf"
  {
    var name := stem + "." + ext;
    assert name[|stem|] == '.';
    assert name[|stem| + 1..] == ext;
    forall j | |stem| < j < |name|
      ensures name[j] != '.'
    {
      assert name[j] == ext[j - |stem| - 1];
    }
  }

  /** A name without any dot is refused, even `pdf` itself. */
  lemma NoDotRefused(filename: string)
    requires forall j :: 0 <= j < |filename| ==> filename[j] != '.'
    ensures !AllowedFile(filename)
  {
  }
}
