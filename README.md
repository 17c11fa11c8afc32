# FileSearch in Dafny

A model of the interactive file-search tool of `FileSearch.py`, with proofs
about it. The tool reads command lines such as
`-r -dir /home/ -pattern:literal banana -moded:after 2017-02-01 -inFile -wrt out.txt`.
It parses each line into search options. It then walks the directory tree
breadth-first from the chosen root and prints one tab-separated line per
entry that passes the filters: path, modification time and size. It prints
to the console, or writes to a file when `-wrt` is given.

The file system is an abstract finite tree (`FileTree.Node`). Each entry has:
- a kind: regular file, directory, something else, a dangling name that
  cannot be stat'ed, or a name in a directory that may be listed but not
  searched, so that stat'ing it is refused;
- a modification time and a size;
- the lines `open` would deliver, with or without a trailing decode error,
  or a refusal to open;
- the entries `listdir` would return, or a refusal to list.

These are modelled as parameters and are not part of the model:
- regular-expression matching, passed as `search(pattern, text)`;
- regular-expression compilation, passed as `compiles(pattern)`;
- `os.path.isdir` and `os.getcwd()`;
- whether `open(f, 'w')` succeeds;
- the `%.1f` rendering of a float, passed as `decimal`.

Modules follow the structure of the program:

| file | module | what it holds |
|---|---|---|
| `common.dfy` | `Common` | `Option`, the path separator, substring search, counting |
| `timestamps.dfy` | `Timestamps` | datetimes and their order, `parse_time`, `time_string` |
| `param_parser.dfy` | `ParamParser` | `str.split()` and the `search_parse_params` scanner |
| `file_tree.dfy` | `FileTree` | the file-system tree |
| `filter.dfy` | `Filter` | `valid_file`, `test_string`, `test_file` |
| `report.dfy` | `Report` | `memory_String` and `file_info` |
| `walk.dfy` | `Walk` | `search` / `search_to_file`: the breadth-first walk |
| `session.dfy` | `Session` | `search_loop` |

Every loop in the source is a method with a `while` loop in the model:
- `ParamParser.ParseParams`, the token loop;
- `Filter.TestFile`, the line loop with its early return;
- `Report.MemoryString`, the unit loop;
- `Walk.ListDirectory`, the listing loop;
- `Walk.Search`, the queue loop;
- `Session.SearchLoop`, the input loop.

Each method is proved equal to a specification function. The properties
are then proved as lemmas about those functions.

The parser's specification works on tokens that already carry their
classification: `Lex` pairs each token with the flag it names and with what
`parse_time` makes of it. The scan then works on these records, and the
comparisons of the token text against the flag names appear only in
`Classify`.

`search` and `search_to_file` run the same walk and produce the same lines.
`print` ends each line with a line end, and `search_to_file` writes each line
followed by `'\n'`, so the text is the same either way. The model therefore
has one walk (`Walk.SearchSpec`). A session sends its lines to the console
as `Line` events, or stores `FileText(lines)` under the `-wrt` path.

Three behaviours of the source are easy to get wrong. The model follows the
source in each:
- Any exception except a `PermissionError` raised inside the listing loop
  ends the session without being reported. This covers an invalid regular
  expression in `-pattern:regex`, a well-sized `-moded` value that is not a
  date, a `-wrt` file that cannot be opened, and a dangling entry while a
  time bound is set. Such a session ends with `Crashed`.
- The hour is separated by a colon: `2016-06-01:09`, not `2016-06-01 09`.
- A `PermissionError` while testing an entry abandons the rest of that
  directory. It is not a per-entry skip. This happens when `-inFile` opens
  an unreadable file, or when a time bound makes `getmtime` stat an entry
  of a directory that may be listed but not searched.

The console is a sequence of events: the help text, the `input:` prompt
before each read, and the printed lines.

## Model

| member | source | states |
|---|---|---|
| `Timestamps.PrecisionOf` | FileSearch.py:148-161 | the length picks a format exactly for lengths 4, 7, 10, 13, 16 and 19, and that format's strings have that length |
| `Timestamps.ParseTime` | FileSearch.py:139-161 | `None` exactly when the length is not one of the six; a parsed datetime is valid, and the fields the format does not supply are at their least value (month and day 1, hour, minute, second 0) |
| `Timestamps.ParseTimeText` | FileSearch.py:148-161 | round trip: a valid datetime written in any of the six formats parses back to that datetime truncated to the format |
| `Timestamps.TimeString` | FileSearch.py:248-250 | `time_string` gives 23 characters with the separators of `%Y-%m-%d %H:%M:%S.%f` cut to milliseconds, and no tab |
| `ParamParser.Split` | FileSearch.py:55 | `str.split()` returns tokens that are non-empty and hold no white space, and that together hold exactly the non-space characters of the line, in order |
| `ParamParser.SplitRuns` | FileSearch.py:55 | the tokens are the maximal non-space runs: the line is white space, token, white space, …, token, white space, and the white space between two tokens is never empty |
| `ParamParser.ParseToken` | FileSearch.py:65-135 | one turn of the loop: it raises exactly when the scan step raises, with `re.error` for `-pattern:regex` and `ValueError` otherwise; otherwise it moves the index by 1 or 2 and updates the options as the step does |
| `ParamParser.ParseValue` | FileSearch.py:73-131 | the branches for `-wrt`, `-pattern:regex`, `-pattern:literal` and `-dir`: raise exactly when the scan step raises (`re.error` only for an uncompilable regex); otherwise move the index by 2 and update the options as the step does, with a missing value making the line bad |
| `ParamParser.ParseBound` | FileSearch.py:99-118 | the branches for `-moded:before` and `-moded:after`: raise `ValueError` exactly when the scan step raises; otherwise move the index by 2 and set the bound as the step does |
| `ParamParser.ParseParams` | FileSearch.py:49-136 | the `while` loop computes the scan of the tokens from index 0 and `os.getcwd()` |
| `ParamParser.Visited` | FileSearch.py:62-135 | the positions the loop inspects start at `i`, lie inside the tokens, and the last one plus its width reaches the end |
| `ParamParser.VisitedAdvance` | FileSearch.py:74-135 | the index strictly increases, by 1 after a simple flag and by 2 after a value flag |
| `ParamParser.EveryTokenConsumed` | FileSearch.py:62-135 | every token is inspected as a flag, or is the value taken by the value flag right before it |
| `ParamParser.ScanRaisesIff` | FileSearch.py:81-116 | parsing raises exactly when some visited step raises: an uncompilable regex, or a right-length date that `strptime` refuses |
| `ParamParser.ScanBadIff` | FileSearch.py:73-134 | `bad` is set exactly when some inspected step sets it: an unknown token, a value flag in last position, a `-moded` value of the wrong length, or a `-dir` value that is not a directory |
| `ParamParser.ScanSwitch` | FileSearch.py:65-71 | `-r`, `-inFile` and `-exit` are set exactly when their flag is visited |
| `ParamParser.LastStoreIsLast` | FileSearch.py:73-130 | the chosen store is a visited flag, and no visited flag after it stores into the same option |
| `ParamParser.ScanLastValue` | FileSearch.py:73-128 | a repeated `-wrt`, `-pattern:*` or `-dir` flag keeps the value of the last one that stores, and leaves the option unchanged when none stores |
| `ParamParser.ScanLastBound` | FileSearch.py:99-116 | a time bound holds what the last `-moded` flag of its kind left there (`None` for a wrong-length value), and is unchanged when there is none |
| `ParamParser.ScanDirectory` | FileSearch.py:59-128 | `directory` is `os.getcwd()`, or else a directory path that ends in the separator |
| `Filter.TestStringOr` | FileSearch.py:227-232 | `test_string` is true exactly when the literal is a substring or the regex matches |
| `Filter.TestFile` | FileSearch.py:235-245 | returns `True` on a match of the name without opening the file; otherwise raises `PermissionError` when the file cannot be opened, and is `True` exactly when a line delivered before any decode error matches |
| `Filter.ValidFileRaises` | FileSearch.py:211-224 | `valid_file` raises `FileNotFoundError` exactly when a time bound is set and the entry is a dangling name; it raises `PermissionError` exactly when a time bound is set and stat'ing the entry is refused, or when `-inFile` opens an unreadable regular file whose name does not match |
| `Filter.ValidFileNoCriteria` | FileSearch.py:211-224 | with no time bound and no pattern, every entry passes |
| `Filter.ValidFileAnd` | FileSearch.py:211-224 | when nothing raises, an entry passes exactly when it is not newer than `before`, not older than `after`, and passes the pattern test |
| `Filter.InFileSearchesLines` | FileSearch.py:219-245 | with `-inFile`, a readable regular file passes the pattern test exactly when its name or one of its lines matches |
| `Report.UnitIndex` | FileSearch.py:253-258 | the unit index is the least `k` below 8 with `n < 1024^(k+1)`, or 8 (`Yi`) when there is none |
| `Report.MemoryString` | FileSearch.py:253-258 | the loop dividing by 1024.0 renders the size scaled by `1024^UnitIndex(n)`, followed by that unit and `B` |
| `Report.FileInfoColumns` | FileSearch.py:261-270 | `file_info` starts with the path and a tab; it has two tabs for a regular file (time, size) and one otherwise (time, or `Not File or Directory`) |
| `Walk.QueuedPathKeepsPath` | FileSearch.py:186-190 | the separator test before `q.put` never fires for a name `listdir` returns, so the queued path is the joined path |
| `Walk.ScanEntries` | FileSearch.py:185-195 | the subdirectories queued while listing a directory weigh no more than its entries |
| `Walk.ListDir` | FileSearch.py:180-195 | listing a dequeued directory queues strictly less than the directory's own tree, so the walk ends |
| `Walk.ListDirectory` | FileSearch.py:180-195 | the `for` loop inside the `try` produces exactly the lines, queue additions and crash of the listing specification |
| `Walk.Search` | FileSearch.py:164-195 | the `while not q.empty()` loop produces exactly the lines and crash of the search specification |
| `Walk.HeaderFirst` | FileSearch.py:172-177 | the header comes first, then the root's line when the root passes, before anything is dequeued |
| `Walk.OnlyRootWithoutR` | FileSearch.py:186-190 | without `-r`, only the root is dequeued, and the output is the header, the root's line and the root's entries |
| `Walk.DeniedContinues` | FileSearch.py:184-195 | a directory that refuses its listing gives exactly one `Cannot open: ` line for itself, and the walk goes on with the rest of the queue |
| `Walk.AbandonRest` | FileSearch.py:184-195 | a `PermissionError` from testing an entry ends that directory's listing with the `Cannot open: ` line; the entries after it are neither tested nor queued |
| `Walk.Fifo` | FileSearch.py:174-182 | the queue is first in, first out: the items on the queue are dequeued first, in order |
| `Walk.WalkReachesAll` | FileSearch.py:174-195 | with or without `-r`, a walk that does not crash dequeues the same items, as often, as the depth-first order `ReachAll` over the same listings; `RecursiveWalk` relates the walk to the tree itself |
| `Walk.RecursiveQueuesSubdirs` | FileSearch.py:185-190 | with `-r` and no test raising, the listing loop queues exactly the subdirectories among the entries, in listing order, each under its joined path, and does not crash |
| `Walk.RecursiveListDir` | FileSearch.py:180-195 | with `-r` and no test raising, listing a dequeued directory queues exactly its subdirectories; a directory that refuses its listing queues none |
| `Walk.RecursiveWalk` | FileSearch.py:179-195 | with `-r`, a walk from directories in whose trees no test raises does not crash, and dequeues every directory of those trees exactly once (`TreeDirsAll`, defined from the tree alone) |
| `Walk.RecursiveSearchVisitsTree` | FileSearch.py:172-195 | a `-r` search from a root directory where no test raises does not crash and dequeues every directory of the tree exactly once |
| `Walk.QuietLines` | FileSearch.py:185-192 | when no test raises, the listing loop prints exactly the `file_info` lines of the entries that pass, in listing order |
| `Walk.QuietListDir` | FileSearch.py:180-195 | listing a directory where no test raises prints one `Cannot open: ` line when the listing is refused, and otherwise the lines of its passing entries |
| `Walk.WalkLinesAreListings` | FileSearch.py:179-195 | the walk prints only the listings of the directories it dequeues, in dequeue order, up to and including one that crashes |
| `Walk.SearchLines` | FileSearch.py:172-195 | the search prints the header, the root's line when the root passes, and then the listings of the dequeued directories in order |
| `Walk.RecursiveLines` | FileSearch.py:179-195 | with `-r` and no test raising, the walk prints, for each directory in dequeue order, its report, which is built from the tree alone |
| `Walk.RecursiveSearchLines` | FileSearch.py:172-195 | a `-r` search from a root directory where no test raises prints the header, the root's line, then for each dequeued directory (each directory of the tree once) the lines of its passing entries in listing order |
| `Walk.FileTextAppend` | FileSearch.py:276-299 | writing lines one at a time, each followed by `'\n'`, gives the text of all lines |
| `Session.RunRound` | FileSearch.py:33-42 | one turn of the loop after `input` returns a line gives exactly the events, files and stop of the round specification |
| `Session.SearchLoop` | FileSearch.py:28-42 | the input loop, with the prompt before each read, gives exactly the console, files and ending of the session specification |
| `Session.HelpFirst` | FileSearch.py:30-32 | the help is shown first, then the prompt for the first line |
| `Session.ExitStops` | FileSearch.py:32-36 | a line with `-exit` ends the session right after its prompt, even when it is also bad |
| `Session.BadShowsHelp` | FileSearch.py:32-39 | a bad line that does not exit shows its prompt and the help, writes nothing, and the loop goes on |
| `Session.SearchOutput` | FileSearch.py:28-42 | a console search shows the header first and writes no file; a `-wrt` search shows nothing, puts text starting with the header in that file, and leaves the other files alone |
| `Session.NoWrtNoFiles` | FileSearch.py:40-42 | with no `-wrt`, a session writes no file |
| `Session.EndOfInputIff` | FileSearch.py:31-42 | the session reaches the end of input exactly when no line stopped it, whether by exit or by an exception |

## Left out

- `Final_Embeded.py` is not part of this model: it scans ports, lists users and groups, and checks the platform. It is operating-system and network plumbing.
- Regular expressions: `re.compile` and `re.search` are parameters. Only their yes/no answers are modelled.
- `ParseTime`: Python's `\d` also accepts non-ASCII decimal digits. The model accepts only `0`–`9`.
- `Report.MemoryString`: the size is a real number, so a size above 2^53, which a float cannot hold exactly, is still divided exactly. The `%3.1f` and `%.1f` renderings are the `decimal` parameter. Padding to width 3 never shows for numbers that are not negative, so both formats use the same parameter.
- `Timestamps.TimeString`: the time-zone conversion of `fromtimestamp` is not modelled. The modification time is given directly as a local datetime.
- The file system is a finite tree. Symbolic-link cycles, under which `-r` would never end, cannot be expressed.
- A file written by `-wrt` exists while the search runs, but the model does not add it to the tree the search sees.
- Console and file writes are modelled as events and final file contents. Flushing and what a crash leaves half-written are not modelled beyond the lines produced before the crash.
- The help text is a `Help` event and the prompt a `Prompt` event. The help's wording is not modelled.
- `input()` returns the given sequence of lines. Its end raises `EOFError`, which ends the session as `EndOfInput`.
- The operating-system errors modelled are: `FileNotFoundError` from `getmtime`; `PermissionError` from `getmtime`, `open` and `listdir`; the failure of `open(f, 'w')` for `-wrt`, which ends the session; and `listdir` on a queued path that is not a directory, which ends the session too. Other errors, such as an input/output error from a failing device, are left out.
