/**
  `importErr.Error()`: the message `import "<path>": <msg>`, with the path
  quoted the way `%q` quotes it, and a reader that recovers the error from
  the message.
 */
module ErrorText {
  import opened Types
  import opened Validation

  /** The body of a `%q` string: '"' and '\' are preceded by a '\'. */
  function Escape(s: string): (r: string)
    ensures |r| >= |s|
  {
    if s == [] then []
    else (if s[0] == '"' || s[0] == '\\' then ['\\', s[0]] else [s[0]]) + Escape(s[1..])
  }

  /** A path with no '"' and no '\' is quoted as it is. */
  lemma {:induction false} EscapePlain(s: string)
    requires forall i :: 0 <= i < |s| ==> s[i] != '"' && s[i] != '\\'
    ensures Escape(s) == s
  {
    if s != [] {
      EscapePlain(s[1..]);
    }
  }

  /** `fmt.Sprintf("%q", s)`. */
  function Quote(s: string): string
  {
    "\"" + Escape(s) + "\""
  }

  /** `importErr.Error()`. */
  function ErrorString(e: Error): (r: string)
    requires e.ImportErr?
    ensures HasPrefix(r, "import \"")
    ensures |r| >= |"import \"\": "| + |e.path| + |e.msg|
    ensures (forall i :: 0 <= i < |e.path| ==> e.path[i] != '"' && e.path[i] != '\\') ==>
      r == "import \"" + e.path + "\": " + e.msg
  {
    if forall i :: 0 <= i < |e.path| ==> e.path[i] != '"' && e.path[i] != '\\' then
      EscapePlain(e.path);
      assert Quote(e.path) == "\"" + e.path + "\"";
      "import " + Quote(e.path) + ": " + e.msg
    else
      "import " + Quote(e.path) + ": " + e.msg
  }

  /** Reads an escaped `%q` body up to its closing quote; gives the text it
      stands for and what follows the quote. */
  function ReadQuoted(s: string): Option<(string, string)>
  {
    if s == [] then None
    else if s[0] == '"' then Some(([], s[1..]))
    else if s[0] == '\\' then
      if |s| < 2 then None
      else match ReadQuoted(s[2..])
        case None => None
        case Some((text, rest)) => Some(([s[1]] + text, rest))
    else match ReadQuoted(s[1..])
      case None => None
      case Some((text, rest)) => Some(([s[0]] + text, rest))
  }

  /** Reads a message of the form `import "<path>": <msg>` back into the
      error it was made from. */
  function ParseErrorString(s: string): Option<Error>
  {
    if !HasPrefix(s, "import \"") then None
    else match ReadQuoted(s[8..])
      case None => None
      case Some((path, rest)) =>
        if HasPrefix(rest, ": ") then Some(ImportErr(path, rest[2..])) else None
  }

  lemma {:induction false} ReadQuotedEscape(s: string, tail: string)
    ensures ReadQuoted(Escape(s) + "\"" + tail) == Some((s, tail))
  {
    if s == [] {
      assert Escape(s) + "\"" + tail == ['"'] + tail;
    } else {
      ReadQuotedEscape(s[1..], tail);
      var rest := Escape(s[1..]) + "\"" + tail;
      if s[0] == '"' || s[0] == '\\' {
        assert Escape(s) + "\"" + tail == ['\\', s[0]] + rest;
        assert (['\\', s[0]] + rest)[2..] == rest;
      } else {
        assert Escape(s) + "\"" + tail == [s[0]] + rest;
        assert ([s[0]] + rest)[1..] == rest;
      }
      assert [s[0]] + s[1..] == s;
    }
  }

  /** The message determines the error: reading it back gives the path and
      the message it was made from, whatever characters they hold. */
  lemma ErrorStringRoundTrip(e: Error)
    requires e.ImportErr?
    ensures ParseErrorString(ErrorString(e)) == Some(e)
  {
    var s := ErrorString(e);
    var tail := ": " + e.msg;
    assert s == "import \"" + (Escape(e.path) + "\"" + tail);
    assert s[8..] == Escape(e.path) + "\"" + tail;
    ReadQuotedEscape(e.path, tail);
    assert tail[..2] == ": " && tail[2..] == e.msg;
  }

  /** Two errors with the same message are the same error. */
  lemma ErrorStringInjective(e1: Error, e2: Error)
    requires e1.ImportErr? && e2.ImportErr?
    requires ErrorString(e1) == ErrorString(e2)
    ensures e1 == e2
  {
    ErrorStringRoundTrip(e1);
    ErrorStringRoundTrip(e2);
  }
}
