/** `search_loop`: the read–parse–search loop. Each input line is parsed;
    `-exit` ends the loop, a bad line shows the help again, otherwise the
    search runs and its lines go to the console or, with `-wrt`, to a file.
    An exception from the parser, from `open` or from the walk ends the
    session, as does the end of input. */
module Session {

  import opened Common
  import opened FileTree
  import opened ParamParser
  import opened Walk

  /** What the session sees of the world: the working directory, the file
      system by path, `re.compile`, the walk's tools, and whether `open(f,
      'w')` succeeds. */
  datatype Env = Env(cwd: string, resolve: string -> Node, compiles: string -> bool,
                     tools: Tools, canWrite: string -> bool)

  /** `os.path.isdir` on the file system of `env`. */
  function IsDirIn(env: Env): string -> bool {
    d => env.resolve(d).kind == Directory
  }

  /** What appears on the console: the help text, the `input:` prompt that
      `input` prints before each read, or one printed line. */
  datatype Event = Help | Prompt | Line(text: string)

  /** How a session ends: `-exit`, `input` raising `EOFError` at the end of
      input, or another exception escaping the loop. */
  datatype Stop = Exited | EndOfInput | Crashed

  /** The console, the files written by `-wrt`, and how the loop ended. */
  datatype Session = Session(console: seq<Event>, files: map<string, string>, stop: Stop)

  function Lines(ls: seq<string>): (r: seq<Event>)
    ensures |r| == |ls|
    ensures forall k | 0 <= k < |ls| :: r[k] == Line(ls[k])
  {
    seq(|ls|, k requires 0 <= k < |ls| => Line(ls[k]))
  }

  /** `search_parse_params` on one input line. */
  function Parse(env: Env, line: string): ParseResult {
    Scan(Lex(Split(line)), 0, Initial(env.cwd), IsDirIn(env), env.compiles)
  }

  /** The entry the search starts from. */
  function RootOf(env: Env, p: Params): Item {
    Item(p.directory, env.resolve(p.directory))
  }

  /** One turn of the loop: what it shows, the files afterwards, and whether
      the loop stops. */
  datatype Round = Round(events: seq<Event>, files: map<string, string>, stop: Option<Stop>)

  /** The body of the `while` loop for one input line. `-exit` is looked at
      before `bad`; `-wrt` opens the file before anything is searched. */
  function RoundOf(env: Env, files: map<string, string>, line: string): Round {
    match Parse(env, line)
    case Raised(_) => Round([], files, Some(Crashed))
    case Parsed(p) =>
      if p.exit then Round([], files, Some(Exited))
      else if p.bad then Round([Help], files, None)
      else if p.writeTo.Some? && !env.canWrite(p.writeTo.value) then Round([], files, Some(Crashed))
      else
        var o := SearchSpec(p, RootOf(env, p), env.tools);
        var stop := if o.crashed then Some(Crashed) else None;
        if p.writeTo.Some? then Round([], files[p.writeTo.value := FileText(o.lines)], stop)
        else Round(Lines(o.lines), files, stop)
  }

  /** Events shown before a session's own. */
  function Prefix(events: seq<Event>, s: Session): Session {
    Session(events + s.console, s.files, s.stop)
  }

  /** The loop over the remaining input lines. Every read prints the prompt
      first, the one that meets the end of input included. */
  function Run(env: Env, inputs: seq<string>, files: map<string, string>): Session
    decreases |inputs|
  {
    if inputs == [] then Session([Prompt], files, EndOfInput)
    else
      var r := RoundOf(env, files, inputs[0]);
      if r.stop.Some? then Session([Prompt] + r.events, r.files, r.stop.value)
      else Prefix([Prompt] + r.events, Run(env, inputs[1..], r.files))
  }

  /** `search_loop()`: the help first, then the loop. */
  function SessionSpec(env: Env, inputs: seq<string>, files: map<string, string>): Session {
    Prefix([Help], Run(env, inputs, files))
  }

  lemma RunStep(env: Env, inputs: seq<string>, k: nat, files: map<string, string>)
    requires k < |inputs|
    ensures var r := RoundOf(env, files, inputs[k]);
            Run(env, inputs[k..], files) ==
              if r.stop.Some? then Session([Prompt] + r.events, r.files, r.stop.value)
              else Prefix([Prompt] + r.events, Run(env, inputs[k + 1..], r.files))
  {
    assert inputs[k..][0] == inputs[k];
    assert inputs[k..][1..] == inputs[k + 1..];
  }

  /** The round of a line that is searched. */
  lemma RoundSearch(env: Env, files: map<string, string>, line: string, p: Params)
    requires Parse(env, line) == Parsed(p) && !p.exit && !p.bad
    requires p.writeTo.Some? ==> env.canWrite(p.writeTo.value)
    ensures var o := SearchSpec(p, RootOf(env, p), env.tools);
            RoundOf(env, files, line) ==
              Round(if p.writeTo.Some? then [] else Lines(o.lines),
                    if p.writeTo.Some? then files[p.writeTo.value := FileText(o.lines)] else files,
                    if o.crashed then Some(Crashed) else None)
  {
  }

  lemma PrefixPrefix(a: seq<Event>, b: seq<Event>, s: Session)
    ensures Prefix(a, Prefix(b, s)) == Prefix(a + b, s)
  {
    assert a + (b + s.console) == a + b + s.console;
  }

  /** The body of the `while` loop for one input line, after `input` has
      returned it. */
  method RunRound(env: Env, files0: map<string, string>, line: string)
    returns (events: seq<Event>, files: map<string, string>, stop: Option<Stop>)
    ensures Round(events, files, stop) == RoundOf(env, files0, line)
  {
    events, files := [], files0;
    var r := ParseParams(line, env.cwd, IsDirIn(env), env.compiles);
    if r.Raised? {
      return events, files, Some(Crashed);
    }
    var p := r.params;
    if p.exit {
      return events, files, Some(Exited);
    }
    if p.bad {
      return [Help], files, None;
    }
    if p.writeTo.Some? && !env.canWrite(p.writeTo.value) {
      return events, files, Some(Crashed);
    }
    var lines, crashed := Search(p, RootOf(env, p), env.tools);
    RoundSearch(env, files, line, p);
    if p.writeTo.Some? {
      files := files[p.writeTo.value := FileText(lines)];
    } else {
      events := Lines(lines);
    }
    stop := if crashed then Some(Crashed) else None;
  }

  /** `search_loop()` over the lines `input` returns, with the files present
      before it as `files0`. The search writes its lines as it goes; here
      they are collected first, which leaves the same console and files. */
  method SearchLoop(env: Env, inputs: seq<string>, files0: map<string, string>)
    returns (console: seq<Event>, files: map<string, string>, stop: Stop)
    ensures Session(console, files, stop) == SessionSpec(env, inputs, files0)
  {
    console, files := [Help], files0;
    assert inputs[0..] == inputs;
    var k := 0;
    while k < |inputs|
      invariant 0 <= k <= |inputs|
      invariant SessionSpec(env, inputs, files0) == Prefix(console, Run(env, inputs[k..], files))
      decreases |inputs| - k
    {
      RunStep(env, inputs, k, files);
      ghost var c0, f0 := console, files;
      var events, st;
      events, files, st := RunRound(env, files, inputs[k]);
      console := console + ([Prompt] + events);
      if st.Some? {
        return console, files, st.value;
      }
      PrefixPrefix(c0, [Prompt] + events, Run(env, inputs[k + 1..], files));
      k := k + 1;
    }
    console := console + [Prompt];
    return console, files, EndOfInput;
  }

  // ---------------------------------------------------------------------------
  // Properties of the loop

  /** The help is shown before anything else, and the prompt before the
      first line is read. */
  lemma HelpFirst(env: Env, inputs: seq<string>, files: map<string, string>)
    ensures var s := SessionSpec(env, inputs, files);
            |s.console| >= 2 && s.console[0] == Help && s.console[1] == Prompt
  {
  }

  /** A line with `-exit` ends the session at once, even when the same line
      is also bad: after its prompt nothing more is read, shown or written. */
  lemma ExitStops(env: Env, line: string, more: seq<string>, files: map<string, string>)
    requires Parse(env, line).Parsed? && Parse(env, line).params.exit
    ensures Run(env, [line] + more, files) == Session([Prompt], files, Exited)
  {
    assert ([line] + more)[0] == line;
  }

  /** A bad line that does not exit shows the help after its prompt, writes
      nothing, and the loop goes on with the next line. */
  lemma BadShowsHelp(env: Env, line: string, more: seq<string>, files: map<string, string>)
    requires Parse(env, line).Parsed?
    requires var p := Parse(env, line).params; p.bad && !p.exit
    ensures Run(env, [line] + more, files) == Prefix([Prompt, Help], Run(env, more, files))
  {
    var r := RoundOf(env, files, line);
    assert r == Round([Help], files, None);
    assert [Prompt] + r.events == [Prompt, Help];
    assert ([line] + more)[0] == line;
    assert ([line] + more)[1..] == more;
  }

  /** A line is searched only when it is neither bad nor an exit; a console
      search shows the header first, a `-wrt` search leaves the console as
      it is and puts text that starts with the header in the named file. */
  lemma SearchOutput(env: Env, files: map<string, string>, line: string)
    requires Parse(env, line).Parsed?
    requires var p := Parse(env, line).params;
             !p.exit && !p.bad && (p.writeTo.Some? ==> env.canWrite(p.writeTo.value))
    ensures var p := Parse(env, line).params;
            var r := RoundOf(env, files, line);
            if p.writeTo.None? then
              |r.events| >= 1 && r.events[0] == Line(Header) && r.files == files
            else
              r.events == [] && p.writeTo.value in r.files &&
              |r.files[p.writeTo.value]| >= |Header| + 1 &&
              r.files[p.writeTo.value][..|Header| + 1] == Header + "\n" &&
              (forall f | f in files && f != p.writeTo.value :: f in r.files && r.files[f] == files[f])
  {
    var p := Parse(env, line).params;
    var o := SearchSpec(p, RootOf(env, p), env.tools);
    HeaderFirst(p, RootOf(env, p), env.tools);
    if p.writeTo.Some? {
      TextStarts(o.lines);
    }
  }

  /** The text of a list of lines starts with its first line and a line end. */
  lemma TextStarts(lines: seq<string>)
    requires |lines| >= 1
    ensures |FileText(lines)| >= |lines[0]| + 1
    ensures FileText(lines)[..|lines[0]| + 1] == lines[0] + "\n"
  {
    assert FileText(lines) == lines[0] + "\n" + FileText(lines[1..]);
  }

  /** Files are only written for `-wrt`: when no line of the input asks for
      one, the session leaves the files as they were. */
  lemma {:induction false} NoWrtNoFiles(env: Env, inputs: seq<string>, files: map<string, string>)
    requires forall k | 0 <= k < |inputs| :: !(Parse(env, inputs[k]).Parsed? && Parse(env, inputs[k]).params.writeTo.Some?)
    ensures Run(env, inputs, files).files == files
    decreases |inputs|
  {
    if inputs != [] {
      assert !(Parse(env, inputs[0]).Parsed? && Parse(env, inputs[0]).params.writeTo.Some?);
      var r := RoundOf(env, files, inputs[0]);
      assert r.files == files;
      if r.stop.None? {
        assert forall k | 0 <= k < |inputs[1..]| :: inputs[1..][k] == inputs[k + 1];
        NoWrtNoFiles(env, inputs[1..], files);
      }
    }
  }

  /** A round never ends the session the way the end of input does. */
  lemma RoundNotEndOfInput(env: Env, files: map<string, string>, line: string)
    ensures RoundOf(env, files, line).stop != Some(EndOfInput)
  {
  }

  /** The session reaches the end of its input exactly when no line stops
      it: not an exit, not an exception. */
  lemma {:induction false} EndOfInputIff(env: Env, inputs: seq<string>, files: map<string, string>)
    ensures Run(env, inputs, files).stop == EndOfInput <==>
            forall k | 0 <= k < |inputs| :: RoundOf(env, Files(env, inputs, files, k), inputs[k]).stop.None?
    decreases |inputs|
  {
    if inputs != [] {
      var r := RoundOf(env, files, inputs[0]);
      assert Files(env, inputs, files, 0) == files;
      if r.stop.Some? {
        RoundNotEndOfInput(env, files, inputs[0]);
        assert Run(env, inputs, files).stop == r.stop.value;
      } else {
        assert Run(env, inputs, files) == Prefix([Prompt] + r.events, Run(env, inputs[1..], r.files));
        EndOfInputIff(env, inputs[1..], r.files);
        forall k | 0 <= k < |inputs| - 1
          ensures Files(env, inputs[1..], r.files, k) == Files(env, inputs, files, k + 1)
          ensures inputs[1..][k] == inputs[k + 1]
        {
          FilesShift(env, inputs, files, k);
        }
        if Run(env, inputs, files).stop == EndOfInput {
          forall k | 0 <= k < |inputs|
            ensures RoundOf(env, Files(env, inputs, files, k), inputs[k]).stop.None?
          {
            if k > 0 {
              assert RoundOf(env, Files(env, inputs[1..], r.files, k - 1), inputs[1..][k - 1]).stop.None?;
            }
          }
        } else {
          var j :| 0 <= j < |inputs[1..]| &&
                   !RoundOf(env, Files(env, inputs[1..], r.files, j), inputs[1..][j]).stop.None?;
          assert !RoundOf(env, Files(env, inputs, files, j + 1), inputs[j + 1]).stop.None?;
        }
      }
    }
  }

  /** The files after the first `k` lines, when none of them stopped. */
  function Files(env: Env, inputs: seq<string>, files: map<string, string>, k: nat): map<string, string>
    decreases k
  {
    if k == 0 || inputs == [] then files
    else Files(env, inputs[1..], RoundOf(env, files, inputs[0]).files, k - 1)
  }

  lemma {:induction false} FilesShift(env: Env, inputs: seq<string>, files: map<string, string>, k: nat)
    requires k + 1 < |inputs| + 1 && inputs != []
    ensures Files(env, inputs, files, k + 1) == Files(env, inputs[1..], RoundOf(env, files, inputs[0]).files, k)
  {
  }
}
