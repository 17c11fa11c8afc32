/** `valid_file`, `test_string` and `test_file`: whether a path passes the
    search criteria. `re.search` is a parameter: `search(pattern, text)`
    says whether the pattern matches somewhere in the text. */
module Filter {

  import opened Common
  import opened Timestamps
  import opened FileTree
  import opened ParamParser

  /** The exceptions the tests can raise: `PermissionError` from `open`, and
      `FileNotFoundError` from `os.path.getmtime`. */
  datatype Failure = PermissionDenied | NotFound

  /** A test's result: `True`, `False`, or an exception that escapes it. */
  datatype Verdict = Pass | Fail | Raise(failure: Failure)

  /** `test_string(s, params)`: the literal test first, then the regex. */
  predicate TestString(p: Params, search: (string, string) -> bool, s: string) {
    if p.literal.Some? && Contains(s, p.literal.value) then true
    else if p.regex.Some? && search(p.regex.value, s) then true
    else false
  }

  /** `test_string` is the OR of the two tests; with neither key it fails. */
  lemma TestStringOr(p: Params, search: (string, string) -> bool, s: string)
    ensures TestString(p, search, s) <==>
            (p.literal.Some? && Contains(s, p.literal.value)) ||
            (p.regex.Some? && search(p.regex.value, s))
  {
  }

  /** What `test_file` returns: a match on the path needs no reading;
      otherwise a file that cannot be opened raises, and a readable one
      passes exactly when one of the lines delivered before any decode error
      matches. */
  function FileMatch(path: string, node: Node, p: Params, search: (string, string) -> bool): Verdict {
    if TestString(p, search, path) then Pass
    else match node.content
      case Unreadable => Raise(PermissionDenied)
      case Text(lines, _) =>
        if exists k | 0 <= k < |lines| :: TestString(p, search, lines[k]) then Pass else Fail
  }

  /** `test_file(file, params)`: the path first, then the lines in order with
      a return at the first match; a decode error ends the loop with
      `False`. */
  method TestFile(path: string, node: Node, p: Params, search: (string, string) -> bool)
    returns (v: Verdict)
    ensures v == FileMatch(path, node, p, search)
  {
    if TestString(p, search, path) {
      return Pass;
    }
    if node.content.Unreadable? {
      return Raise(PermissionDenied);
    }
    var lines := node.content.lines;
    var i := 0;
    while i < |lines|
      invariant 0 <= i <= |lines|
      invariant forall k | 0 <= k < i :: !TestString(p, search, lines[k])
    {
      if TestString(p, search, lines[i]) {
        return Pass;
      }
      i := i + 1;
    }
    if node.content.decodeError {
      // the `except UnicodeDecodeError: return False` after the delivered lines
      return Fail;
    }
    // the loop ran out of lines without a match
    return Fail;
  }

  /** The time part of `valid_file`: with a bound present it stats the path,
      and an entry that cannot be stat'ed raises: `FileNotFoundError` for a
      dangling name, `PermissionError` for a name in a directory that may
      not be searched. */
  function TimeTest(node: Node, p: Params): Verdict {
    if p.before.None? && p.after.None? then Pass
    else if node.kind == Missing then Raise(NotFound)
    else if node.kind == Forbidden then Raise(PermissionDenied)
    else if (p.before.None? || Le(node.mtime, p.before.value)) &&
            (p.after.None? || Le(p.after.value, node.mtime)) then Pass
    else Fail
  }

  /** The pattern part of `valid_file`: the contents are searched only with
      `-inFile` and only for a regular file; otherwise the whole path is
      tested. */
  function PatternTest(path: string, node: Node, p: Params, search: (string, string) -> bool): Verdict {
    if p.literal.None? && p.regex.None? then Pass
    else if p.inFile && node.kind == RegularFile then FileMatch(path, node, p, search)
    else if TestString(p, search, path) then Pass
    else Fail
  }

  /** `valid_file(path, params)`: `valid &=` on both parts. The pattern part
      is evaluated even when the time part already failed, so its exception
      escapes either way. */
  function ValidFile(path: string, node: Node, p: Params, search: (string, string) -> bool): Verdict {
    match TimeTest(node, p)
    case Raise(e) => Raise(e)
    case t =>
      match PatternTest(path, node, p, search)
      case Raise(e) => Raise(e)
      case q => if t == Pass && q == Pass then Pass else Fail
  }

  /** A test only raises with the criterion that needs it: a time bound on
      a dangling name for `NotFound`; for `PermissionDenied`, a time bound on
      a name that may not be stat'ed, or `-inFile` on an unreadable regular
      file whose path does not match. */
  lemma ValidFileRaises(path: string, node: Node, p: Params, search: (string, string) -> bool)
    ensures ValidFile(path, node, p, search) == Raise(NotFound) <==>
            (p.before.Some? || p.after.Some?) && node.kind == Missing
    ensures ValidFile(path, node, p, search) == Raise(PermissionDenied) <==>
            ((p.before.Some? || p.after.Some?) && node.kind == Forbidden) ||
            ((p.literal.Some? || p.regex.Some?) && p.inFile && node.kind == RegularFile &&
             node.content.Unreadable? && !TestString(p, search, path))
  {
  }

  /** With no criteria every entry passes, and nothing is stat'ed or opened. */
  lemma ValidFileNoCriteria(path: string, node: Node, p: Params, search: (string, string) -> bool)
    requires p.before.None? && p.after.None? && p.literal.None? && p.regex.None?
    ensures ValidFile(path, node, p, search) == Pass
  {
  }

  /** When nothing raises, a path passes exactly when it is not newer than
      `before`, not older than `after`, and passes the pattern test. */
  lemma ValidFileAnd(path: string, node: Node, p: Params, search: (string, string) -> bool)
    requires !ValidFile(path, node, p, search).Raise?
    ensures ValidFile(path, node, p, search) == Pass <==>
            (p.before.None? || Le(node.mtime, p.before.value)) &&
            (p.after.None? || Le(p.after.value, node.mtime)) &&
            PatternTest(path, node, p, search) == Pass
  {
  }

  /** With `-inFile`, a regular file passes the pattern test when its path
      or one of its lines matches, whichever comes first. */
  lemma InFileSearchesLines(path: string, node: Node, p: Params, search: (string, string) -> bool)
    requires p.literal.Some? || p.regex.Some?
    requires p.inFile && node.kind == RegularFile && node.content.Text?
    ensures PatternTest(path, node, p, search) == Pass <==>
            TestString(p, search, path) ||
            exists k | 0 <= k < |node.content.lines| :: TestString(p, search, node.content.lines[k])
  {
  }
}
