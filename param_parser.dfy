/** `search_parse_params`: the command line is split into whitespace-separated
    tokens, and a scanner walks them with an index, filling a record of the
    search options. A flag that takes a value consumes the next token. */
module ParamParser {

  import opened Common
  import opened Timestamps

  /** The `params` dictionary as a record: a key that the source leaves out is
      `false` or `None` here. `before`/`after` stay `None` when `parse_time`
      returned `None`; `bad` is then set, and a bad record is never searched. */
  datatype Params = Params(
    directory: string,
    recursive: bool,
    inFile: bool,
    exit: bool,
    writeTo: Option<string>,
    regex: Option<string>,
    literal: Option<string>,
    before: Option<DateTime>,
    after: Option<DateTime>,
    bad: bool)

  /** The dictionary right after `params['directory'] = os.getcwd()`. */
  function Initial(cwd: string): Params {
    Params(cwd, false, false, false, None, None, None, None, None, false)
  }

  /** The two exceptions that escape the parser: `re.compile` on an invalid
      pattern, and `strptime` on a right-length string that is not a date. */
  datatype ParseError = RegexError | DateValueError

  datatype ParseResult = Parsed(params: Params) | Raised(error: ParseError)

  // ---------------------------------------------------------------------------
  // str.split()

  /** The characters `str.isspace` accepts, which `str.split()` splits on. */
  predicate IsSpace(c: char) {
    var n := c as int;
    (0x09 <= n <= 0x0D) || (0x1C <= n <= 0x20) || n == 0x85 || n == 0xA0 ||
    n == 0x1680 || (0x2000 <= n <= 0x200A) || n == 0x2028 || n == 0x2029 ||
    n == 0x202F || n == 0x205F || n == 0x3000
  }

  predicate IsToken(t: string) {
    |t| > 0 && forall k | 0 <= k < |t| :: !IsSpace(t[k])
  }

  /** The characters of `s` that are not white space, in order. */
  function NonSpace(s: string): string {
    if s == [] then [] else (if IsSpace(s[0]) then [] else [s[0]]) + NonSpace(s[1..])
  }

  function Concat(ts: seq<string>): string {
    if ts == [] then [] else ts[0] + Concat(ts[1..])
  }

  lemma {:induction false} NonSpaceAppend(a: string, b: string)
    ensures NonSpace(a + b) == NonSpace(a) + NonSpace(b)
  {
    if a == [] {
      assert a + b == b;
    } else {
      assert (a + b)[1..] == a[1..] + b;
      NonSpaceAppend(a[1..], b);
    }
  }

  lemma {:induction false} NonSpaceOfToken(t: string)
    requires forall k | 0 <= k < |t| :: !IsSpace(t[k])
    ensures NonSpace(t) == t
  {
    if t != [] {
      NonSpaceOfToken(t[1..]);
    }
  }

  /** End of the run of non-space characters that starts at `i`. */
  function TokenEnd(s: string, i: nat): (j: nat)
    requires i <= |s|
    ensures i <= j <= |s|
    ensures forall k | i <= k < j :: !IsSpace(s[k])
    ensures j == |s| || IsSpace(s[j])
    decreases |s| - i
  {
    if i == |s| || IsSpace(s[i]) then i else TokenEnd(s, i + 1)
  }

  /** `str.split()`: the tokens are non-empty, hold no white space, and
      together hold exactly the non-space characters of `s`, in order. */
  function Split(s: string): (r: seq<string>)
    ensures forall t | t in r :: IsToken(t)
    ensures Concat(r) == NonSpace(s)
    decreases |s|
  {
    if s == [] then []
    else if IsSpace(s[0]) then
      assert s == [s[0]] + s[1..];
      NonSpaceAppend([s[0]], s[1..]);
      Split(s[1..])
    else
      var j := TokenEnd(s, 0);
      assert s == s[..j] + s[j..];
      NonSpaceAppend(s[..j], s[j..]);
      NonSpaceOfToken(s[..j]);
      [s[..j]] + Split(s[j..])
  }

  predicate AllSpace(w: string) {
    forall k | 0 <= k < |w| :: IsSpace(w[k])
  }

  /** `ws[0] + r[0] + ws[1] + ... + r[n-1] + ws[n]` when `|ws| == n + 1`. */
  function Interleave(ws: seq<string>, r: seq<string>): string
    decreases |r|
  {
    if ws == [] then Concat(r)
    else if r == [] then Concat(ws)
    else ws[0] + r[0] + Interleave(ws[1..], r[1..])
  }

  /** The white space before, between and after the tokens of `Split(s)`. */
  function Gaps(s: string): (ws: seq<string>)
    ensures |ws| >= 1
    decreases |s|
  {
    if s == [] then [[]]
    else if IsSpace(s[0]) then
      var g := Gaps(s[1..]);
      [[s[0]] + g[0]] + g[1..]
    else [[]] + Gaps(s[TokenEnd(s, 0)..])
  }

  /** One gap more than tokens. */
  lemma {:induction false} GapsLength(s: string)
    ensures |Gaps(s)| == |Split(s)| + 1
    decreases |s|
  {
    if s != [] {
      if IsSpace(s[0]) {
        GapsLength(s[1..]);
      } else {
        GapsLength(s[TokenEnd(s, 0)..]);
      }
    }
  }

  /** The tokens and gaps of a line that starts with a space. */
  lemma SplitSpace(s: string)
    requires s != [] && IsSpace(s[0])
    ensures Split(s) == Split(s[1..])
    ensures Gaps(s) == [[s[0]] + Gaps(s[1..])[0]] + Gaps(s[1..])[1..]
  {
  }

  /** A leading space joins the first gap. */
  lemma GapsRebuildSpace(s: string)
    requires s != [] && IsSpace(s[0])
    requires Interleave(Gaps(s[1..]), Split(s[1..])) == s[1..]
    ensures Interleave(Gaps(s), Split(s)) == s
  {
    SplitSpace(s);
    InterleaveFirst([s[0]], Gaps(s[1..]), Split(s[1..]));
    assert s == [s[0]] + s[1..];
  }

  /** Text in front of the first gap goes in front of the whole. */
  lemma InterleaveFirst(a: string, g: seq<string>, r: seq<string>)
    requires |g| >= 1
    ensures Interleave([a + g[0]] + g[1..], r) == a + Interleave(g, r)
  {
    var ws := [a + g[0]] + g[1..];
    assert ws[0] == a + g[0] && ws[1..] == g[1..];
    if r == [] {
      assert Concat(ws) == ws[0] + Concat(g[1..]);
      assert Concat(g) == g[0] + Concat(g[1..]);
    } else {
      var tail := r[0] + Interleave(g[1..], r[1..]);
      assert Interleave(g, r) == g[0] + tail;
      assert Interleave(ws, r) == (a + g[0]) + tail;
    }
  }

  /** A token after an empty first gap goes in front of the whole. */
  lemma InterleaveToken(t: string, g: seq<string>, r: seq<string>)
    ensures Interleave([[]] + g, [t] + r) == t + Interleave(g, r)
  {
    assert ([[]] + g)[1..] == g && ([t] + r)[1..] == r;
    assert Interleave([[]] + g, [t] + r) == [] + t + Interleave(g, r);
  }

  /** The tokens and gaps of a line that starts with a token. */
  lemma SplitToken(s: string)
    requires s != [] && !IsSpace(s[0])
    ensures Split(s) == [s[..TokenEnd(s, 0)]] + Split(s[TokenEnd(s, 0)..])
    ensures Gaps(s) == [[]] + Gaps(s[TokenEnd(s, 0)..])
  {
  }

  /** A leading token comes after an empty first gap. */
  lemma GapsRebuildToken(s: string)
    requires s != [] && !IsSpace(s[0])
    requires Interleave(Gaps(s[TokenEnd(s, 0)..]), Split(s[TokenEnd(s, 0)..])) == s[TokenEnd(s, 0)..]
    ensures Interleave(Gaps(s), Split(s)) == s
  {
    var j := TokenEnd(s, 0);
    SplitToken(s);
    InterleaveToken(s[..j], Gaps(s[j..]), Split(s[j..]));
    assert s == s[..j] + s[j..];
  }

  /** `s` is its tokens with the white space around them. */
  lemma {:induction false} GapsRebuild(s: string)
    ensures Interleave(Gaps(s), Split(s)) == s
    decreases |s|
  {
    if s == [] {
      assert Interleave([[]], []) == [] + Concat([]);
    } else if IsSpace(s[0]) {
      GapsRebuild(s[1..]);
      GapsRebuildSpace(s);
    } else {
      GapsRebuild(s[TokenEnd(s, 0)..]);
      GapsRebuildToken(s);
    }
  }

  /** Every gap between tokens is white space. */
  lemma {:induction false} GapsAllSpace(s: string)
    ensures forall k | 0 <= k < |Gaps(s)| :: AllSpace(Gaps(s)[k])
    decreases |s|
  {
    if s == [] {
    } else if IsSpace(s[0]) {
      var g := Gaps(s[1..]);
      GapsAllSpace(s[1..]);
      var ws := Gaps(s);
      assert AllSpace(ws[0]) by {
        forall k | 0 <= k < |ws[0]|
          ensures IsSpace(ws[0][k])
        {
          if k > 0 {
            assert ws[0][k] == g[0][k - 1];
          }
        }
      }
      assert forall k | 0 < k < |ws| :: ws[k] == g[k];
    } else {
      var g := Gaps(s[TokenEnd(s, 0)..]);
      GapsAllSpace(s[TokenEnd(s, 0)..]);
      var ws := Gaps(s);
      assert forall k | 0 < k < |ws| :: ws[k] == g[k - 1];
    }
  }

  /** The gaps between two tokens are never empty, so no token could be
      extended by its neighbour. */
  lemma {:induction false} GapsInnerNonEmpty(s: string)
    ensures forall k | 0 < k < |Gaps(s)| - 1 :: Gaps(s)[k] != []
    decreases |s|
  {
    if s == [] {
    } else if IsSpace(s[0]) {
      var g := Gaps(s[1..]);
      GapsInnerNonEmpty(s[1..]);
      var ws := Gaps(s);
      assert forall k | 0 < k < |ws| :: ws[k] == g[k];
    } else {
      var j := TokenEnd(s, 0);
      var g := Gaps(s[j..]);
      GapsInnerNonEmpty(s[j..]);
      var ws := Gaps(s);
      assert forall k | 0 < k < |ws| :: ws[k] == g[k - 1];
      if |g| >= 2 {
        assert s[j..] != [] && IsSpace(s[j..][0]);
        assert g[0] != [];
      }
    }
  }

  /** The tokens are the maximal runs of non-space characters: `s` is the
      tokens with white space around them, and the white space between two
      tokens is never empty. */
  lemma SplitRuns(s: string)
    ensures |Gaps(s)| == |Split(s)| + 1
    ensures Interleave(Gaps(s), Split(s)) == s
    ensures forall k | 0 <= k < |Gaps(s)| :: AllSpace(Gaps(s)[k])
    ensures forall k | 0 < k < |Gaps(s)| - 1 :: Gaps(s)[k] != []
  {
    GapsLength(s);
    GapsRebuild(s);
    GapsAllSpace(s);
    GapsInnerNonEmpty(s);
  }

  // ---------------------------------------------------------------------------
  // The scanner

  /** The branch of the `if`/`elif` chain a token selects: `-r`, `-inFile`,
      `-exit`, `-wrt`, `-pattern:regex`, `-pattern:literal`, `-moded:before`,
      `-moded:after`, `-dir`, or the final `else`. */
  datatype Flag = Recursive | InFile | Exit | WriteTo | Regex | Literal | Before | After | Dir | Unknown {
    /** The flags whose branch consumes the following token. */
    predicate TakesValue() {
      !(Recursive? || InFile? || Exit? || Unknown?)
    }
  }

  /** Which flag a token is; the length is looked at first only to keep the
      string comparisons few. */
  function Classify(tok: string): Flag {
    var n := |tok|;
    if n == 2 then (if tok == "-r" then Recursive else Unknown)
    else if n == 7 then (if tok == "-inFile" then InFile else Unknown)
    else if n == 5 then (if tok == "-exit" then Exit else Unknown)
    else if n == 4 then (if tok == "-wrt" then WriteTo else if tok == "-dir" then Dir else Unknown)
    else if n == 14 then (if tok == "-pattern:regex" then Regex else Unknown)
    else if n == 16 then (if tok == "-pattern:literal" then Literal else Unknown)
    else if n == 13 then (if tok == "-moded:before" then Before else Unknown)
    else if n == 12 then (if tok == "-moded:after" then After else Unknown)
    else Unknown
  }

  /** A token as the chain reads it: its text, the branch it selects as a
      flag, and what `parse_time` makes of it as a value. Each is a function
      of the text, so reading them up front changes nothing. */
  datatype Token = Token(text: string, flag: Flag, date: TimeResult)

  /** The tokens of `parts`, read. */
  function Lex(parts: seq<string>): (r: seq<Token>)
    ensures |r| == |parts|
    ensures forall k | 0 <= k < |r| :: r[k] == Token(parts[k], Classify(parts[k]), ParseTime(parts[k]))
  {
    seq(|parts|, k requires 0 <= k < |parts| => Token(parts[k], Classify(parts[k]), ParseTime(parts[k])))
  }

  /** How far the index moves past a token: `i += 1` at the end of the loop,
      plus one more inside a value flag's branch, whether or not a value
      follows. */
  function Width(tok: Token): nat {
    if tok.flag.TakesValue() then 2 else 1
  }

  /** The flag at `k` is `f` and has a value after it that it accepts: for
      `-dir`, the value with a trailing separator must be a directory. */
  predicate Stores(toks: seq<Token>, k: nat, f: Flag, isDir: string -> bool) {
    k + 1 < |toks| && toks[k].flag == f &&
    (f == Dir ==> isDir(WithSep(toks[k + 1].text)))
  }

  /** The string a storing flag at `k` puts into its option. */
  function Stored(toks: seq<Token>, k: nat, f: Flag): string
    requires k + 1 < |toks|
  {
    if f == Dir then WithSep(toks[k + 1].text) else toks[k + 1].text
  }

  /** What `params['before'] = parse_time(v)` leaves behind, when `parse_time`
      does not raise. */
  function Bound(v: Token): Option<DateTime> {
    if v.date.Time? then Some(v.date.t) else None
  }

  /** The step at `k` raises: an uncompilable regex, or a right-length date
      whose values `strptime` refuses. */
  predicate Raises(toks: seq<Token>, k: nat, compiles: string -> bool)
    requires k < |toks|
  {
    k + 1 < |toks| &&
    match toks[k].flag
    case Regex => !compiles(toks[k + 1].text)
    case Before => toks[k + 1].date == Invalid
    case After => toks[k + 1].date == Invalid
    case _ => false
  }

  /** The step at `k` sets `bad`: an unknown token, a value flag with nothing
      after it, a `-moded` value of the wrong length, or a `-dir` value that is
      not a directory. */
  predicate Fails(toks: seq<Token>, k: nat, isDir: string -> bool)
    requires k < |toks|
  {
    var f := toks[k].flag;
    f == Unknown ||
    (f.TakesValue() && k + 1 >= |toks|) ||
    (k + 1 < |toks| && (f == Before || f == After) && toks[k + 1].date == NoFormat) ||
    (k + 1 < |toks| && f == Dir && !isDir(WithSep(toks[k + 1].text)))
  }

  /** The options after a step at `i` that does not raise, field by field:
      each branch of the chain touches only its own key (and `bad`). */
  function Update(toks: seq<Token>, i: nat, p: Params, isDir: string -> bool): Params
    requires i < |toks|
  {
    var f := toks[i].flag;
    var has := i + 1 < |toks|;
    Params(
      directory := if Stores(toks, i, Dir, isDir) then Stored(toks, i, Dir) else p.directory,
      recursive := p.recursive || f == Recursive,
      inFile := p.inFile || f == InFile,
      exit := p.exit || f == Exit,
      writeTo := if Stores(toks, i, WriteTo, isDir) then Some(toks[i + 1].text) else p.writeTo,
      regex := if Stores(toks, i, Regex, isDir) then Some(toks[i + 1].text) else p.regex,
      literal := if Stores(toks, i, Literal, isDir) then Some(toks[i + 1].text) else p.literal,
      before := if has && f == Before then Bound(toks[i + 1]) else p.before,
      after := if has && f == After then Bound(toks[i + 1]) else p.after,
      bad := p.bad || Fails(toks, i, isDir))
  }

  datatype StepResult = Next(p: Params) | Stop(error: ParseError)

  /** One turn of the `while` loop at index `i`. `isDir` stands for
      `os.path.isdir` and `compiles` for `re.compile` succeeding. */
  function Step(toks: seq<Token>, i: nat, p: Params,
                isDir: string -> bool, compiles: string -> bool): StepResult
    requires i < |toks|
  {
    if Raises(toks, i, compiles) then
      Stop(if toks[i].flag == Regex then RegexError else DateValueError)
    else Next(Update(toks, i, p, isDir))
  }

  /** The scan from index `i` on, with the options gathered so far in `p`. */
  function Scan(toks: seq<Token>, i: nat, p: Params,
                isDir: string -> bool, compiles: string -> bool): ParseResult
    decreases |toks| - i
  {
    if i >= |toks| then Parsed(p)
    else match Step(toks, i, p, isDir, compiles)
      case Stop(e) => Raised(e)
      case Next(q) => Scan(toks, i + Width(toks[i]), q, isDir, compiles)
  }

  /** One unfolding of the scan: a raising step ends it with that step's
      error, any other step moves on with the updated options. */
  lemma ScanStep(toks: seq<Token>, i: nat, p: Params,
                 isDir: string -> bool, compiles: string -> bool)
    requires i < |toks|
    ensures Raises(toks, i, compiles) ==>
              Scan(toks, i, p, isDir, compiles) ==
                Raised(if toks[i].flag == Regex then RegexError else DateValueError)
    ensures !Raises(toks, i, compiles) ==>
              Scan(toks, i, p, isDir, compiles) ==
                Scan(toks, i + Width(toks[i]), Update(toks, i, p, isDir), isDir, compiles)
  {
  }

  /** The option a time flag fills in. */
  function BoundOption(p: Params, f: Flag): Option<DateTime> {
    if f == Before then p.before else p.after
  }

  /** The option a string-valued flag fills in (`-dir` always holds one). */
  function StringOption(p: Params, f: Flag): Option<string> {
    match f
    case WriteTo => p.writeTo
    case Regex => p.regex
    case Literal => p.literal
    case _ => Some(p.directory)
  }

  /** What a step does to a string option. */
  lemma UpdateValue(toks: seq<Token>, i: nat, p: Params, f: Flag, isDir: string -> bool)
    requires i < |toks| && (f == WriteTo || f == Regex || f == Literal || f == Dir)
    ensures StringOption(Update(toks, i, p, isDir), f) ==
              if Stores(toks, i, f, isDir) then Some(Stored(toks, i, f)) else StringOption(p, f)
  {
  }

  /** What a step does to a time bound. */
  lemma UpdateBound(toks: seq<Token>, i: nat, p: Params, f: Flag, isDir: string -> bool)
    requires i < |toks| && (f == Before || f == After)
    ensures BoundOption(Update(toks, i, p, isDir), f) ==
              if Stores(toks, i, f, isDir) then Bound(toks[i + 1]) else BoundOption(p, f)
  {
  }

  /** `Update` branch by branch: each branch of the chain sets its own key,
      or `bad` when its value is missing or refused. */
  lemma UpdateCases(toks: seq<Token>, i: nat, p: Params, isDir: string -> bool)
    requires i < |toks|
    ensures var f, u, has := toks[i].flag, Update(toks, i, p, isDir), i + 1 < |toks|;
      (f == Recursive ==> u == p.(recursive := true)) &&
      (f == InFile ==> u == p.(inFile := true)) &&
      (f == Exit ==> u == p.(exit := true)) &&
      (f == Unknown ==> u == p.(bad := true)) &&
      (f.TakesValue() && !has ==> u == p.(bad := true)) &&
      (f == WriteTo && has ==> u == p.(writeTo := Some(toks[i + 1].text))) &&
      (f == Regex && has ==> u == p.(regex := Some(toks[i + 1].text))) &&
      (f == Literal && has ==> u == p.(literal := Some(toks[i + 1].text))) &&
      (f == Before && has ==> u == p.(before := Bound(toks[i + 1]), bad := p.bad || toks[i + 1].date.NoFormat?)) &&
      (f == After && has ==> u == p.(after := Bound(toks[i + 1]), bad := p.bad || toks[i + 1].date.NoFormat?)) &&
      (f == Dir && has && isDir(WithSep(toks[i + 1].text)) ==> u == p.(directory := WithSep(toks[i + 1].text))) &&
      (f == Dir && has && !isDir(WithSep(toks[i + 1].text)) ==> u == p.(bad := true))
  {
  }

  /** One turn of the loop of `search_parse_params`: the `if`/`elif` chain
      on the token at `i`, which either raises or hands back the next index
      and the updated options. */
  method ParseToken(parts: seq<string>, ghost toks: seq<Token>, i0: nat, p0: Params,
                    isDir: string -> bool, compiles: string -> bool)
    returns (i: nat, params: Params, raised: Option<ParseError>)
    requires toks == Lex(parts) && i0 < |parts|
    ensures raised.Some? ==>
              Raises(toks, i0, compiles) &&
              raised.value == if toks[i0].flag == Regex then RegexError else DateValueError
    ensures raised.None? ==>
              !Raises(toks, i0, compiles) &&
              i == i0 + Width(toks[i0]) && params == Update(toks, i0, p0, isDir)
  {
    i, params := i0, p0;
    UpdateCases(toks, i, params, isDir);
    var flag := Classify(parts[i]);
    assert toks[i].flag == flag;
    assert i + 1 < |parts| ==> toks[i + 1] == Token(parts[i + 1], Classify(parts[i + 1]), ParseTime(parts[i + 1]));
    if flag == Recursive {
      params := params.(recursive := true);
    } else if flag == InFile {
      params := params.(inFile := true);
    } else if flag == Exit {
      params := params.(exit := true);
    } else if flag == Before || flag == After {
      i, params, raised := ParseBound(parts, toks, i, params, isDir, compiles);
      return;
    } else if flag.TakesValue() {
      i, params, raised := ParseValue(parts, toks, i, params, isDir, compiles);
      return;
    } else {
      params := params.(bad := true);
    }
    i := i + 1;
    return i, params, None;
  }

  /** The branches of the chain for the flags that take a value: the value
      is the next token, and its absence makes the line bad. */
  method ParseValue(parts: seq<string>, ghost toks: seq<Token>, i0: nat, p0: Params,
                    isDir: string -> bool, compiles: string -> bool)
    returns (i: nat, params: Params, raised: Option<ParseError>)
    requires toks == Lex(parts) && i0 < |parts|
    requires toks[i0].flag in {WriteTo, Regex, Literal, Dir}
    ensures raised.Some? ==>
              Raises(toks, i0, compiles) &&
              raised.value == if toks[i0].flag == Regex then RegexError else DateValueError
    ensures raised.None? ==>
              !Raises(toks, i0, compiles) &&
              i == i0 + Width(toks[i0]) && params == Update(toks, i0, p0, isDir)
  {
    i, params := i0, p0;
    UpdateCases(toks, i, params, isDir);
    var flag := Classify(parts[i]);
    assert toks[i].flag == flag;
    assert i + 1 < |parts| ==> toks[i + 1] == Token(parts[i + 1], Classify(parts[i + 1]), ParseTime(parts[i + 1]));
    if flag == WriteTo {
      i := i + 1;
      if i < |parts| {
        params := params.(writeTo := Some(parts[i]));
      } else {
        params := params.(bad := true);
      }
    } else if flag == Regex {
      i := i + 1;
      if i < |parts| {
        if !compiles(parts[i]) {
          return i, params, Some(RegexError);
        }
        params := params.(regex := Some(parts[i]));
      } else {
        params := params.(bad := true);
      }
    } else if flag == Literal {
      i := i + 1;
      if i < |parts| {
        params := params.(literal := Some(parts[i]));
      } else {
        params := params.(bad := true);
      }
    } else if flag == Dir {
      i := i + 1;
      if i < |parts| {
        var possibleDir := parts[i];
        if !EndsWithSep(possibleDir) {
          possibleDir := possibleDir + [Sep];
        }
        if isDir(possibleDir) {
          params := params.(directory := possibleDir);
        } else {
          params := params.(bad := true);
        }
      } else {
        params := params.(bad := true);
      }
    }
    i := i + 1;
    return i, params, None;
  }

  /** The branches for `-moded:before` and `-moded:after`: a value of the
      wrong length leaves the bound `None` and makes the line bad; a
      right-length value that is not a date raises. */
  method ParseBound(parts: seq<string>, ghost toks: seq<Token>, i0: nat, p0: Params,
                    isDir: string -> bool, compiles: string -> bool)
    returns (i: nat, params: Params, raised: Option<ParseError>)
    requires toks == Lex(parts) && i0 < |parts|
    requires toks[i0].flag == Before || toks[i0].flag == After
    ensures raised.Some? ==> Raises(toks, i0, compiles) && raised.value == DateValueError
    ensures raised.None? ==>
              !Raises(toks, i0, compiles) &&
              i == i0 + Width(toks[i0]) && params == Update(toks, i0, p0, isDir)
  {
    i, params := i0, p0;
    UpdateCases(toks, i, params, isDir);
    var flag := Classify(parts[i]);
    assert toks[i].flag == flag;
    assert i + 1 < |parts| ==> toks[i + 1] == Token(parts[i + 1], Classify(parts[i + 1]), ParseTime(parts[i + 1]));
    if flag == Before {
      i := i + 1;
      if i < |parts| {
        var t := ParseTime(parts[i]);
        if t.Invalid? {
          return i, params, Some(DateValueError);
        }
        params := params.(before := if t.Time? then Some(t.t) else None);
        if t.NoFormat? {
          params := params.(bad := true);
        }
      } else {
        params := params.(bad := true);
      }
    } else if flag == After {
      i := i + 1;
      if i < |parts| {
        var t := ParseTime(parts[i]);
        if t.Invalid? {
          return i, params, Some(DateValueError);
        }
        params := params.(after := if t.Time? then Some(t.t) else None);
        if t.NoFormat? {
          params := params.(bad := true);
        }
      } else {
        params := params.(bad := true);
      }
    }
    i := i + 1;
    return i, params, None;
  }

  /** `search_parse_params(params_str)`, with `os.getcwd()`, `os.path.isdir`
      and `re.compile` passed in. */
  method ParseParams(paramsStr: string, cwd: string,
                     isDir: string -> bool, compiles: string -> bool)
    returns (r: ParseResult)
    ensures r == Scan(Lex(Split(paramsStr)), 0, Initial(cwd), isDir, compiles)
  {
    var parts := Split(paramsStr);
    ghost var toks := Lex(parts);
    var params := Initial(cwd);
    var i := 0;
    while i < |parts|
      invariant Scan(toks, i, params, isDir, compiles) == Scan(toks, 0, Initial(cwd), isDir, compiles)
      decreases |parts| - i
    {
      ScanStep(toks, i, params, isDir, compiles);
      var next, q, raised := ParseToken(parts, toks, i, params, isDir, compiles);
      if raised.Some? {
        return Raised(raised.value);
      }
      i, params := next, q;
    }
    return Parsed(params);
  }

  // ---------------------------------------------------------------------------
  // What the scan does, stated over the positions it visits

  /** The indices the loop inspects as flags, starting from `i`. */
  function Visited(toks: seq<Token>, i: nat): (r: seq<nat>)
    ensures forall j | 0 <= j < |r| :: i <= r[j] < |toks|
    ensures i < |toks| ==> |r| > 0 && r[0] == i
    ensures |r| > 0 ==> r[|r| - 1] + Width(toks[r[|r| - 1]]) >= |toks|
    decreases |toks| - i
  {
    if i >= |toks| then [] else [i] + Visited(toks, i + Width(toks[i]))
  }

  /** Consecutive visited positions are one token apart after a simple flag
      and two after a value flag: the index strictly increases. */
  lemma {:induction false} VisitedAdvance(toks: seq<Token>, i: nat, j: nat)
    requires j + 1 < |Visited(toks, i)|
    ensures Visited(toks, i)[j + 1] == Visited(toks, i)[j] + Width(toks[Visited(toks, i)[j]])
    decreases |toks| - i
  {
    var rest := Visited(toks, i + Width(toks[i]));
    assert Visited(toks, i) == [i] + rest;
    if j > 0 {
      VisitedAdvance(toks, i + Width(toks[i]), j - 1);
    }
  }

  /** The scan consumes every token: each one is inspected as a flag or is
      the value of the value flag just before it. */
  lemma {:induction false} EveryTokenConsumed(toks: seq<Token>, i: nat, k: nat)
    requires i <= k < |toks|
    ensures k in Visited(toks, i) ||
            (k > i && k - 1 in Visited(toks, i) && toks[k - 1].flag.TakesValue())
    decreases |toks| - i
  {
    var w := Width(toks[i]);
    if k > i && !(k == i + 1 && toks[i].flag.TakesValue()) {
      assert i + w <= k;
      EveryTokenConsumed(toks, i + w, k);
    }
  }

  /** The parser raises exactly when some visited step raises. */
  lemma {:induction false} ScanRaisesIff(toks: seq<Token>, i: nat, p: Params,
                                         isDir: string -> bool, compiles: string -> bool)
    ensures Scan(toks, i, p, isDir, compiles).Raised? <==>
            exists k | k in Visited(toks, i) :: Raises(toks, k, compiles)
    decreases |toks| - i
  {
    if i < |toks| {
      var v := Visited(toks, i);
      assert v == [i] + Visited(toks, i + Width(toks[i]));
      var rest := Visited(toks, i + Width(toks[i]));
      ScanStep(toks, i, p, isDir, compiles);
      if Raises(toks, i, compiles) {
        assert i in v;
      } else {
        ScanRaisesIff(toks, i + Width(toks[i]), Update(toks, i, p, isDir), isDir, compiles);
        if exists k | k in rest :: Raises(toks, k, compiles) {
          var k :| k in rest && Raises(toks, k, compiles);
          assert k in v;
        } else {
          forall k | k in v
            ensures !Raises(toks, k, compiles)
          {
            if k != i {
              assert k in rest;
            }
          }
        }
      }
    }
  }

  /** When the parser returns, `bad` is set exactly when it was set on entry or
      some visited step fails. */
  lemma {:induction false} ScanBadIff(toks: seq<Token>, i: nat, p: Params,
                                      isDir: string -> bool, compiles: string -> bool)
    requires Scan(toks, i, p, isDir, compiles).Parsed?
    ensures Scan(toks, i, p, isDir, compiles).params.bad <==>
            p.bad || exists k | k in Visited(toks, i) :: Fails(toks, k, isDir)
    decreases |toks| - i
  {
    if i < |toks| {
      var v := Visited(toks, i);
      assert v == [i] + Visited(toks, i + Width(toks[i]));
      var rest := Visited(toks, i + Width(toks[i]));
      var q := Update(toks, i, p, isDir);
      ScanStep(toks, i, p, isDir, compiles);
      ScanBadIff(toks, i + Width(toks[i]), q, isDir, compiles);
      if Fails(toks, i, isDir) {
        assert i in v;
      } else if exists k | k in rest :: Fails(toks, k, isDir) {
        var k :| k in rest && Fails(toks, k, isDir);
        assert k in v;
      } else {
        forall k | k in v
          ensures !Fails(toks, k, isDir)
        {
          if k != i {
            assert k in rest;
          }
        }
      }
    }
  }

  /** The switch a simple flag turns on. */
  function Switch(p: Params, f: Flag): bool {
    match f
    case Recursive => p.recursive
    case InFile => p.inFile
    case _ => p.exit
  }

  lemma UpdateSwitch(toks: seq<Token>, i: nat, p: Params, f: Flag, isDir: string -> bool)
    requires i < |toks|
    requires f == Recursive || f == InFile || f == Exit
    ensures Switch(Update(toks, i, p, isDir), f) == (Switch(p, f) || toks[i].flag == f)
  {
  }

  /** The switches `-r`, `-inFile` and `-exit` are set exactly when their flag
      is visited (or was set on entry). */
  lemma {:induction false} ScanSwitch(toks: seq<Token>, i: nat, p: Params, f: Flag,
                                      isDir: string -> bool, compiles: string -> bool)
    requires f == Recursive || f == InFile || f == Exit
    requires Scan(toks, i, p, isDir, compiles).Parsed?
    ensures Switch(Scan(toks, i, p, isDir, compiles).params, f) <==>
            Switch(p, f) || exists k | k in Visited(toks, i) :: toks[k].flag == f
    decreases |toks| - i
  {
    if i < |toks| {
      var v := Visited(toks, i);
      assert v == [i] + Visited(toks, i + Width(toks[i]));
      var rest := Visited(toks, i + Width(toks[i]));
      var q := Update(toks, i, p, isDir);
      UpdateSwitch(toks, i, p, f, isDir);
      ScanStep(toks, i, p, isDir, compiles);
      assert !Raises(toks, i, compiles);
      assert Scan(toks, i + Width(toks[i]), q, isDir, compiles) == Scan(toks, i, p, isDir, compiles);
      ScanSwitch(toks, i + Width(toks[i]), q, f, isDir, compiles);
      if toks[i].flag == f {
        assert i in v;
      } else if exists k | k in rest :: toks[k].flag == f {
        var k :| k in rest && toks[k].flag == f;
        assert k in v;
      } else {
        forall k | k in v
          ensures toks[k].flag != f
        {
          if k != i {
            assert k in rest;
          }
        }
      }
    }
  }

  /** The index of the last flag visited from `i` that stores into the
      option of `f`, or -1 when none does. */
  function LastStore(toks: seq<Token>, i: nat, f: Flag, isDir: string -> bool): (r: int)
    ensures r == -1 || (i <= r && Stores(toks, r, f, isDir))
    decreases |toks| - i
  {
    if i >= |toks| then -1
    else
      var t := LastStore(toks, i + Width(toks[i]), f, isDir);
      if t >= 0 then t
      else if Stores(toks, i, f, isDir) then i
      else -1
  }

  /** `LastStore` picks a visited flag, no visited flag after it stores into
      the same option, and when it picks none, no visited flag does. */
  lemma {:induction false} LastStoreIsLast(toks: seq<Token>, i: nat, f: Flag,
                                           isDir: string -> bool)
    ensures LastStore(toks, i, f, isDir) >= 0 ==> LastStore(toks, i, f, isDir) in Visited(toks, i)
    ensures forall k | k in Visited(toks, i) && k > LastStore(toks, i, f, isDir) ::
              !Stores(toks, k, f, isDir)
    decreases |toks| - i
  {
    if i < |toks| {
      var j := i + Width(toks[i]);
      LastStoreIsLast(toks, j, f, isDir);
      assert Visited(toks, i) == [i] + Visited(toks, j);
    }
  }

  /** A repeated flag's later value overwrites the earlier one: a string
      option holds the value stored by the last visited flag that stores one,
      and is unchanged when no visited flag does. */
  lemma {:induction false} ScanLastValue(toks: seq<Token>, i: nat, p: Params, f: Flag,
                                         isDir: string -> bool, compiles: string -> bool)
    requires f == WriteTo || f == Regex || f == Literal || f == Dir
    requires Scan(toks, i, p, isDir, compiles).Parsed?
    ensures var last := LastStore(toks, i, f, isDir);
            StringOption(Scan(toks, i, p, isDir, compiles).params, f) ==
              if last < 0 then StringOption(p, f) else Some(Stored(toks, last, f))
    decreases |toks| - i
  {
    if i < |toks| {
      var q := Update(toks, i, p, isDir);
      ScanStep(toks, i, p, isDir, compiles);
      UpdateValue(toks, i, p, f, isDir);
      ScanLastValue(toks, i + Width(toks[i]), q, f, isDir, compiles);
    }
  }

  /** The same for the two time bounds: a bound holds what the last visited
      `-moded` flag of its kind with a value left there (`None` when that
      value had the wrong length), and is unchanged when there is none. */
  lemma {:induction false} ScanLastBound(toks: seq<Token>, i: nat, p: Params, f: Flag,
                                         isDir: string -> bool, compiles: string -> bool)
    requires f == Before || f == After
    requires Scan(toks, i, p, isDir, compiles).Parsed?
    ensures var last := LastStore(toks, i, f, isDir);
            BoundOption(Scan(toks, i, p, isDir, compiles).params, f) ==
              if last < 0 then BoundOption(p, f) else Bound(toks[last + 1])
    decreases |toks| - i
  {
    if i < |toks| {
      var q := Update(toks, i, p, isDir);
      var j := i + Width(toks[i]);
      ScanStep(toks, i, p, isDir, compiles);
      assert Scan(toks, i, p, isDir, compiles) == Scan(toks, j, q, isDir, compiles);
      UpdateBound(toks, i, p, f, isDir);
      ScanLastBound(toks, j, q, f, isDir, compiles);
    }
  }

  /** `directory` is always set: it is `os.getcwd()` unless a `-dir` value was
      accepted, and then it is a directory path ending in the separator. */
  lemma {:induction false} ScanDirectory(toks: seq<Token>, cwd: string,
                                         isDir: string -> bool, compiles: string -> bool)
    requires Scan(toks, 0, Initial(cwd), isDir, compiles).Parsed?
    ensures var d := Scan(toks, 0, Initial(cwd), isDir, compiles).params.directory;
            d == cwd || (EndsWithSep(d) && isDir(d))
  {
    ScanLastValue(toks, 0, Initial(cwd), Dir, isDir, compiles);
  }
}
