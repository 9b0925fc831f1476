/**
  Import-path validation: the checks `srcdirImporter.Import` makes on the
  path before it looks at the filesystem.
 */
module Validation {
  import opened Types

  /** `strings.HasPrefix`. */
  predicate HasPrefix(s: string, prefix: string)
  {
    |prefix| <= |s| && s[..|prefix|] == prefix
  }

  /** The first element of a slash-separated path: everything before the
      first '/', or the whole path when it has none. */
  function FirstElement(p: string): (e: string)
    ensures HasPrefix(p, e)
    ensures '/' !in e
    ensures e == p || p[|e|] == '/'
  {
    if p == [] || p[0] == '/' then []
    else [p[0]] + FirstElement(p[1..])
  }

  /** The reason a path is refused, read off its first element: an empty
      path, a first element "." or "..", or an empty first element (a leading
      '/'). This is an independent description of the prefix tests below. */
  function Refusal(p: string): Option<string>
  {
    if p == "" then Some(InvalidImportPath)
    else if FirstElement(p) == "." || FirstElement(p) == ".." then Some(RelativeImport)
    else if FirstElement(p) == "" then Some(AbsoluteImport)
    else None
  }

  /** The three checks, in source order, first match wins; `None` lets the
      path through. Each error carries the path unchanged. */
  function Validate(p: string): (r: Option<Error>)
    ensures r.None? <==> Refusal(p).None?
    ensures r.Some? ==> Refusal(p).Some? && r.value == ImportErr(p, Refusal(p).value)
  {
    if p == "" then
      Some(ImportErr(p, InvalidImportPath))
    else if p == "." || p == ".." || HasPrefix(p, "./") || HasPrefix(p, "../") then
      assert FirstElement(p) == "." || FirstElement(p) == ".." by { RelativeByFirstElement(p); }
      Some(ImportErr(p, RelativeImport))
    else if HasPrefix(p, "/") then
      Some(ImportErr(p, AbsoluteImport))
    else
      RelativeByFirstElement(p);
      None
  }

  /** A path is "." or "..", or starts with "./" or "../", exactly when its
      first element is "." or "..". */
  lemma RelativeByFirstElement(p: string)
    ensures (p == "." || p == ".." || HasPrefix(p, "./") || HasPrefix(p, "../"))
        <==> (FirstElement(p) == "." || FirstElement(p) == "..")
  {
  }

  /** A path whose first character is neither '.' nor '/' is accepted. */
  lemma PlainStartAccepted(p: string)
    requires p != "" && p[0] != '.' && p[0] != '/'
    ensures Validate(p).None?
  {
    assert FirstElement(p)[0] == p[0];
  }

  /** How each refusal reads on the path itself: the checks are disjoint,
      so the first match is the only match. */
  lemma RefusalReasons(p: string)
    ensures Validate(p).Some? ==> Validate(p).value.path == p
    ensures Refusal(p) == Some(InvalidImportPath) <==> p == ""
    ensures Refusal(p) == Some(RelativeImport) ==> p[0] == '.'
    ensures Refusal(p) == Some(AbsoluteImport) <==> HasPrefix(p, "/")
  {
  }
}
