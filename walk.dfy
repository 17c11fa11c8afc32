/** `search` and `search_to_file`: a header line, the root's own line, then a
    breadth-first walk with a FIFO queue seeded with the root. Both routines
    produce the same lines; they differ only in where the lines go. */
module Walk {

  import opened Common
  import opened FileTree
  import opened ParamParser
  import opened Filter
  import opened Report

  /** A queue entry: the path as it was put on the queue, and what is there. */
  datatype Item = Item(path: string, node: Node)

  /** What the walk needs besides the options: `re.search` and `%.1f`. */
  datatype Tools = Tools(search: (string, string) -> bool, decimal: real -> string)

  const Header: string := "Filename\tmodification date\tfile size"

  /** The line for a directory that cannot be listed, or whose listing was
      cut short by a `PermissionError`. */
  function CannotOpen(dir: string): string {
    "Cannot open: " + dir
  }

  /** The path put on the queue for a subdirectory. The test is the reverse
      of the one on dequeue: it appends a separator only to a path that
      already ends in one. */
  function QueuedPath(curFile: string): string {
    if EndsWithSep(curFile) then curFile + [Sep] else curFile
  }

  /** A name `os.listdir` can return: not empty and without a separator. */
  predicate ListedName(name: string) {
    |name| > 0 && forall k | 0 <= k < |name| :: name[k] != Sep
  }

  /** For any name `listdir` returns, the test on line 188 never fires. */
  lemma QueuedPathKeepsPath(dir: string, name: string)
    requires ListedName(name)
    ensures QueuedPath(dir + name) == dir + name
  {
    assert (dir + name)[|dir + name| - 1] == name[|name| - 1];
  }

  /** The total size of the trees under the queued nodes. */
  function Weight(q: seq<Item>): nat {
    if q == [] then 0 else Size(q[0].node) + Weight(q[1..])
  }

  lemma {:induction false} WeightAppend(a: seq<Item>, b: seq<Item>)
    ensures Weight(a + b) == Weight(a) + Weight(b)
  {
    if a == [] {
      assert a + b == b;
    } else {
      assert (a + b)[1..] == a[1..] + b;
      WeightAppend(a[1..], b);
    }
  }

  /** What listing one directory produces: report lines, the subdirectories
      put on the queue, and whether an exception escaped the walk. */
  datatype Listed = Listed(lines: seq<string>, queued: seq<Item>, crashed: bool)

  /** The entries that `-r` puts on the queue for one entry. */
  function Enqueue(p: Params, path: string, e: Node): seq<Item> {
    if p.recursive && e.kind == Directory then [Item(QueuedPath(path), e)] else []
  }

  /** The `for` loop over the entries `es` of directory `dir`, inside the
      `try`. A subdirectory is queued before it is tested. A
      `PermissionError` from a test ends the loop with a `Cannot open` line;
      a `FileNotFoundError` escapes. The queued nodes are a subsequence of
      `es`, so their trees are no larger. */
  function ScanEntries(p: Params, dir: string, es: seq<Node>, tools: Tools): (r: Listed)
    ensures Weight(r.queued) <= SizeOf(es)
    decreases |es|
  {
    if es == [] then Listed([], [], false)
    else
      var e, path := es[0], dir + es[0].name;
      var q := Enqueue(p, path, e);
      assert Weight(q) <= Size(e);
      match ValidFile(path, e, p, tools.search)
      case Raise(PermissionDenied) => Listed([CannotOpen(dir)], q, false)
      case Raise(NotFound) => Listed([], q, true)
      case v =>
        var r := ScanEntries(p, dir, es[1..], tools);
        WeightAppend(q, r.queued);
        Listed((if v == Pass then [FileInfo(path, e, tools.decimal)] else []) + r.lines,
               q + r.queued, r.crashed)
  }

  /** The lines and queue so far, followed by what the remaining entries add. */
  function Join(lines: seq<string>, queued: seq<Item>, rest: Listed): Listed {
    Listed(lines + rest.lines, queued + rest.queued, rest.crashed)
  }

  lemma JoinJoin(a: seq<string>, b: seq<Item>, c: seq<string>, d: seq<Item>, r: Listed)
    ensures Join(a, b, Join(c, d, r)) == Join(a + c, b + d, r)
  {
    assert a + (c + r.lines) == a + c + r.lines;
    assert b + (d + r.queued) == b + d + r.queued;
  }

  /** One entry of the `for` loop, with the test's verdict named. */
  lemma ScanEntriesStep(p: Params, dir: string, es: seq<Node>, tools: Tools)
    requires es != []
    ensures var path := dir + es[0].name;
            var v := ValidFile(path, es[0], p, tools.search);
            var q := Enqueue(p, path, es[0]);
            ScanEntries(p, dir, es, tools) ==
              if v == Raise(PermissionDenied) then Listed([CannotOpen(dir)], q, false)
              else if v == Raise(NotFound) then Listed([], q, true)
              else Join(if v == Pass then [FileInfo(path, es[0], tools.decimal)] else [], q,
                        ScanEntries(p, dir, es[1..], tools))
  {
  }

  /** One dequeued directory: the separator is appended, then it is listed.
      A listing refused with `PermissionError` gives one `Cannot open` line;
      `listdir` on anything but a directory raises an error the `try` does
      not catch. */
  function ListDir(p: Params, it: Item, tools: Tools): (r: Listed)
    ensures Weight(r.queued) < Size(it.node)
  {
    var dir := WithSep(it.path);
    if it.node.kind != Directory then Listed([], [], true)
    else match it.node.listing
      case Denied => Listed([CannotOpen(dir)], [], false)
      case Entries(es) => ScanEntries(p, dir, es, tools)
  }

  /** The report lines, the items dequeued in order, and whether an
      exception ended the walk. */
  datatype Outcome = Outcome(lines: seq<string>, dequeued: seq<Item>, crashed: bool)

  /** The `while not q.empty()` loop from queue `q`. */
  function WalkQueue(p: Params, q: seq<Item>, tools: Tools): Outcome
    decreases Weight(q)
  {
    if q == [] then Outcome([], [], false)
    else
      var l := ListDir(p, q[0], tools);
      if l.crashed then Outcome(l.lines, [q[0]], true)
      else
        WeightAppend(q[1..], l.queued);
        var rest := WalkQueue(p, q[1..] + l.queued, tools);
        Outcome(l.lines + rest.lines, [q[0]] + rest.dequeued, rest.crashed)
  }

  /** One turn of the `while` loop. */
  lemma WalkStep(p: Params, q: seq<Item>, tools: Tools)
    requires q != []
    ensures var l := ListDir(p, q[0], tools);
            WalkQueue(p, q, tools) ==
              if l.crashed then Outcome(l.lines, [q[0]], true)
              else
                var rest := WalkQueue(p, q[1..] + l.queued, tools);
                Outcome(l.lines + rest.lines, [q[0]] + rest.dequeued, rest.crashed)
  {
  }

  /** `search(params)`: the header, then the root's line when it passes. The
      root is tested outside the `try`, so any exception from it escapes. */
  function SearchSpec(p: Params, root: Item, tools: Tools): Outcome {
    var v := ValidFile(root.path, root.node, p, tools.search);
    if v.Raise? then Outcome([Header], [], true)
    else
      var w := WalkQueue(p, [root], tools);
      Outcome([Header] + (if v == Pass then [FileInfo(root.path, root.node, tools.decimal)] else []) + w.lines,
              w.dequeued, w.crashed)
  }

  // ---------------------------------------------------------------------------
  // The two loops

  /** The body of the `while` loop for one dequeued item: the `try` around
      the `for` loop over its entries. */
  method ListDirectory(p: Params, it: Item, tools: Tools)
    returns (lines: seq<string>, queued: seq<Item>, crashed: bool)
    ensures Listed(lines, queued, crashed) == ListDir(p, it, tools)
  {
    var curDir := it.path;
    if !EndsWithSep(curDir) {
      curDir := curDir + [Sep];
    }
    lines, queued, crashed := [], [], false;
    if it.node.kind != Directory {
      crashed := true;
      return;
    }
    if it.node.listing.Denied? {
      lines := [CannotOpen(curDir)];
      return;
    }
    var es := it.node.listing.children;
    ghost var total := ListDir(p, it, tools);
    assert total == ScanEntries(p, curDir, es[0..], tools) by {
      assert es[0..] == es;
    }
    var i := 0;
    while i < |es|
      invariant 0 <= i <= |es|
      invariant total == Join(lines, queued, ScanEntries(p, curDir, es[i..], tools))
    {
      var e := es[i];
      var curFile := curDir + e.name;
      ghost var rest := ScanEntries(p, curDir, es[i + 1..], tools);
      ghost var q0 := queued;
      ghost var l0 := lines;
      ScanEntriesStep(p, curDir, es[i..], tools);
      assert es[i..][0] == e && es[i..][1..] == es[i + 1..];
      if p.recursive && e.kind == Directory {
        var queuedPath := curFile;
        if EndsWithSep(queuedPath) {
          queuedPath := queuedPath + [Sep];
        }
        queued := queued + [Item(queuedPath, e)];
      }
      assert queued == q0 + Enqueue(p, curFile, e);
      var v := ValidFile(curFile, e, p, tools.search);
      if v == Raise(PermissionDenied) {
        lines := lines + [CannotOpen(curDir)];
        return;
      }
      if v == Raise(NotFound) {
        crashed := true;
        return;
      }
      ghost var line: seq<string> := [];
      if v == Pass {
        line := [FileInfo(curFile, e, tools.decimal)];
        lines := lines + [FileInfo(curFile, e, tools.decimal)];
      }
      assert ScanEntries(p, curDir, es[i..], tools) == Join(line, Enqueue(p, curFile, e), rest);
      JoinJoin(l0, q0, line, Enqueue(p, curFile, e), rest);
      assert lines == l0 + line;
      assert total == Join(lines, queued, rest);
      i := i + 1;
    }
  }

  /** `search(params)` with the directory's node `root.node` at
      `root.path`. The queue is a sequence: `put` appends, `get` takes the
      first. */
  method Search(p: Params, root: Item, tools: Tools) returns (lines: seq<string>, crashed: bool)
    ensures lines == SearchSpec(p, root, tools).lines
    ensures crashed == SearchSpec(p, root, tools).crashed
  {
    lines := [Header];
    var q := [root];
    var v := ValidFile(root.path, root.node, p, tools.search);
    if v.Raise? {
      return lines, true;
    }
    if v == Pass {
      lines := lines + [FileInfo(root.path, root.node, tools.decimal)];
    }
    ghost var total := SearchSpec(p, root, tools);
    assert total.lines == lines + WalkQueue(p, q, tools).lines;
    while q != []
      invariant total.lines == lines + WalkQueue(p, q, tools).lines
      invariant total.crashed == WalkQueue(p, q, tools).crashed
      decreases Weight(q)
    {
      WalkStep(p, q, tools);
      ghost var l0 := lines;
      var cur := q[0];
      q := q[1..];
      var dirLines, queued, dirCrashed := ListDirectory(p, cur, tools);
      lines := lines + dirLines;
      if dirCrashed {
        return lines, true;
      }
      WeightAppend(q, queued);
      q := q + queued;
      assert l0 + (dirLines + WalkQueue(p, q, tools).lines) == lines + WalkQueue(p, q, tools).lines;
    }
    return lines, false;
  }

  /** `search_to_file` writes each line followed by a line end; `print` in
      `search` ends each line the same way, so both give this text. */
  function FileText(lines: seq<string>): string {
    if lines == [] then "" else lines[0] + "\n" + FileText(lines[1..])
  }

  /** Writing the lines one after the other, each with its line end, gives
      the text of all of them. */
  lemma {:induction false} FileTextAppend(a: seq<string>, b: seq<string>)
    ensures FileText(a + b) == FileText(a) + FileText(b)
    decreases |a|
  {
    if a == [] {
      assert a + b == b;
    } else {
      assert (a + b)[0] == a[0];
      assert (a + b)[1..] == a[1..] + b;
      FileTextAppend(a[1..], b);
    }
  }

  // ---------------------------------------------------------------------------
  // Properties of the walk

  /** The header comes first; then the root's line when the root passes. */
  lemma HeaderFirst(p: Params, root: Item, tools: Tools)
    ensures var o := SearchSpec(p, root, tools);
            |o.lines| >= 1 && o.lines[0] == Header &&
            (ValidFile(root.path, root.node, p, tools.search) == Pass ==>
               |o.lines| >= 2 && o.lines[1] == FileInfo(root.path, root.node, tools.decimal))
  {
  }

  /** Without `-r` nothing is queued. */
  lemma {:induction false} NothingQueuedWithoutR(p: Params, dir: string, es: seq<Node>, tools: Tools)
    requires !p.recursive
    ensures ScanEntries(p, dir, es, tools).queued == []
    decreases |es|
  {
    if es != [] {
      NothingQueuedWithoutR(p, dir, es[1..], tools);
    }
  }

  /** Without `-r` only the root is ever dequeued, and the output is the
      header, the root's line when it passes, and the root's listing. */
  lemma OnlyRootWithoutR(p: Params, root: Item, tools: Tools)
    requires !p.recursive
    requires !ValidFile(root.path, root.node, p, tools.search).Raise?
    ensures SearchSpec(p, root, tools).dequeued == [root]
    ensures SearchSpec(p, root, tools).lines ==
            [Header] +
            (if ValidFile(root.path, root.node, p, tools.search) == Pass
             then [FileInfo(root.path, root.node, tools.decimal)] else []) +
            ListDir(p, root, tools).lines
  {
    var l := ListDir(p, root, tools);
    if root.node.kind == Directory && root.node.listing.Entries? {
      NothingQueuedWithoutR(p, WithSep(root.path), root.node.listing.children, tools);
    }
    if !l.crashed {
      assert [root][1..] + l.queued == [];
      assert WalkQueue(p, [root], tools) == Outcome(l.lines + [], [root] + [], false);
    } else {
      assert WalkQueue(p, [root], tools) == Outcome(l.lines, [root], true);
    }
  }

  /** A directory that refuses its listing gives exactly one `Cannot open`
      line, queues nothing, and the walk goes on with the rest of the queue. */
  lemma DeniedContinues(p: Params, q: seq<Item>, tools: Tools)
    requires q != [] && q[0].node.kind == Directory && q[0].node.listing.Denied?
    ensures var rest := WalkQueue(p, q[1..], tools);
            WalkQueue(p, q, tools) ==
              Outcome([CannotOpen(WithSep(q[0].path))] + rest.lines, [q[0]] + rest.dequeued, rest.crashed)
  {
    assert q[1..] + [] == q[1..];
  }

  /** A `PermissionError` on an entry abandons the entries after it: they are
      neither tested nor queued, whatever they are, and the listing ends
      with the `Cannot open` line. */
  lemma {:induction false} AbandonRest(p: Params, dir: string, a: seq<Node>, e: Node,
                                       b: seq<Node>, c: seq<Node>, tools: Tools)
    requires forall k | 0 <= k < |a| :: !ValidFile(dir + a[k].name, a[k], p, tools.search).Raise?
    requires ValidFile(dir + e.name, e, p, tools.search) == Raise(PermissionDenied)
    ensures ScanEntries(p, dir, a + [e] + b, tools) == ScanEntries(p, dir, a + [e] + c, tools)
    ensures var r := ScanEntries(p, dir, a + [e] + b, tools);
            |r.lines| > 0 && r.lines[|r.lines| - 1] == CannotOpen(dir) && !r.crashed
    decreases |a|
  {
    if a == [] {
      assert ([] + [e] + b)[0] == e && ([] + [e] + c)[0] == e;
    } else {
      assert (a + [e] + b)[1..] == a[1..] + [e] + b;
      assert (a + [e] + c)[1..] == a[1..] + [e] + c;
      AbandonRest(p, dir, a[1..], e, b, c, tools);
    }
  }

  /** The queue is first in, first out: the items on the queue when a step
      starts are dequeued first, in their order. */
  lemma {:induction false} Fifo(p: Params, q: seq<Item>, tools: Tools)
    requires !WalkQueue(p, q, tools).crashed
    ensures |WalkQueue(p, q, tools).dequeued| >= |q|
    ensures WalkQueue(p, q, tools).dequeued[..|q|] == q
    decreases Weight(q)
  {
    if q != [] {
      var l := ListDir(p, q[0], tools);
      WeightAppend(q[1..], l.queued);
      var q' := q[1..] + l.queued;
      Fifo(p, q', tools);
      var d := WalkQueue(p, q', tools).dequeued;
      assert d[..|q| - 1] == d[..|q'|][..|q| - 1];
      assert WalkQueue(p, q, tools).dequeued[..|q|] == [q[0]] + d[..|q| - 1];
    }
  }

  /** A reference order for the directories the walk reaches: depth-first,
      each item before the items its listing queues. */
  function Reach(p: Params, it: Item, tools: Tools): seq<Item>
    decreases Size(it.node), 0
  {
    var l := ListDir(p, it, tools);
    [it] + ReachAll(p, l.queued, tools)
  }

  function ReachAll(p: Params, q: seq<Item>, tools: Tools): seq<Item>
    decreases Weight(q), 1
  {
    if q == [] then [] else Reach(p, q[0], tools) + ReachAll(p, q[1..], tools)
  }

  lemma {:induction false} ReachAllAppend(p: Params, a: seq<Item>, b: seq<Item>, tools: Tools)
    ensures ReachAll(p, a + b, tools) == ReachAll(p, a, tools) + ReachAll(p, b, tools)
    decreases |a|
  {
    if a == [] {
      assert a + b == b;
    } else {
      assert (a + b)[1..] == a[1..] + b;
      ReachAllAppend(p, a[1..], b, tools);
    }
  }

  /** A walk that does not crash dequeues every item it reaches exactly as
      often as the depth-first reference lists it: breadth-first order
      changes the order, not the items. */
  lemma {:induction false} WalkReachesAll(p: Params, q: seq<Item>, tools: Tools)
    requires !WalkQueue(p, q, tools).crashed
    ensures multiset(WalkQueue(p, q, tools).dequeued) == multiset(ReachAll(p, q, tools))
    decreases Weight(q)
  {
    if q != [] {
      var l := ListDir(p, q[0], tools);
      WeightAppend(q[1..], l.queued);
      WalkReachesAll(p, q[1..] + l.queued, tools);
      ReachAllAppend(p, q[1..], l.queued, tools);
    }
  }

  // ---------------------------------------------------------------------------
  // What `-r` visits, from the tree alone

  /** The subdirectories among the entries `es` of directory `dir`, each
      with the path it is queued under, in listing order. */
  function DirItems(dir: string, es: seq<Node>): (r: seq<Item>)
    ensures Weight(r) <= SizeOf(es)
    ensures forall k | 0 <= k < |r| :: r[k].node.kind == Directory
    decreases |es|
  {
    if es == [] then []
    else
      var head := if es[0].kind == Directory then [Item(QueuedPath(dir + es[0].name), es[0])] else [];
      var r := DirItems(dir, es[1..]);
      WeightAppend(head, r);
      head + r
  }

  /** Every directory of the tree under `it`, `it` first, then the trees of
      its subdirectories in listing order. */
  function TreeDirs(it: Item): seq<Item>
    decreases Size(it.node), 0
  {
    [it] + TreeDirsAll(DirItems(WithSep(it.path), Children(it.node)))
  }

  function TreeDirsAll(q: seq<Item>): seq<Item>
    decreases Weight(q), 1
  {
    if q == [] then [] else TreeDirs(q[0]) + TreeDirsAll(q[1..])
  }

  lemma {:induction false} TreeDirsAllAppend(a: seq<Item>, b: seq<Item>)
    ensures TreeDirsAll(a + b) == TreeDirsAll(a) + TreeDirsAll(b)
    decreases |a|
  {
    if a == [] {
      assert a + b == b;
    } else {
      assert (a + b)[0] == a[0] && (a + b)[1..] == a[1..] + b;
      TreeDirsAllAppend(a[1..], b);
      assert TreeDirsAll(a + b) == TreeDirs(a[0]) + TreeDirsAll(a[1..] + b);
    }
  }

  /** No entry of directory `dir` among `es` makes `valid_file` raise. */
  predicate NoneRaise(p: Params, dir: string, es: seq<Node>, tools: Tools) {
    forall k | 0 <= k < |es| :: !ValidFile(dir + es[k].name, es[k], p, tools.search).Raise?
  }

  /** No entry anywhere in the tree under `it` makes `valid_file` raise. */
  predicate Quiet(p: Params, it: Item, tools: Tools)
    decreases Size(it.node), 0
  {
    var dir := WithSep(it.path);
    NoneRaise(p, dir, Children(it.node), tools) &&
    QuietAll(p, DirItems(dir, Children(it.node)), tools)
  }

  predicate QuietAll(p: Params, q: seq<Item>, tools: Tools)
    decreases Weight(q), 1
  {
    q == [] || (Quiet(p, q[0], tools) && QuietAll(p, q[1..], tools))
  }

  lemma {:induction false} QuietAllAppend(p: Params, a: seq<Item>, b: seq<Item>, tools: Tools)
    requires QuietAll(p, a, tools) && QuietAll(p, b, tools)
    ensures QuietAll(p, a + b, tools)
    decreases |a|
  {
    if a == [] {
      assert a + b == b;
    } else {
      assert (a + b)[1..] == a[1..] + b;
      QuietAllAppend(p, a[1..], b, tools);
    }
  }

  /** With `-r` and no test raising, the listing loop queues exactly the
      subdirectories of the listing, in its order, and does not crash. */
  lemma {:induction false} RecursiveQueuesSubdirs(p: Params, dir: string, es: seq<Node>, tools: Tools)
    requires p.recursive && NoneRaise(p, dir, es, tools)
    ensures ScanEntries(p, dir, es, tools).queued == DirItems(dir, es)
    ensures !ScanEntries(p, dir, es, tools).crashed
    decreases |es|
  {
    if es != [] {
      assert !ValidFile(dir + es[0].name, es[0], p, tools.search).Raise?;
      assert NoneRaise(p, dir, es[1..], tools) by {
        forall k | 0 <= k < |es[1..]|
          ensures !ValidFile(dir + es[1..][k].name, es[1..][k], p, tools.search).Raise?
        {
          assert es[1..][k] == es[k + 1];
        }
      }
      RecursiveQueuesSubdirs(p, dir, es[1..], tools);
    }
  }

  /** With `-r`, listing a directory in whose entries no test raises queues
      exactly its subdirectories and does not crash. */
  lemma RecursiveListDir(p: Params, it: Item, tools: Tools)
    requires p.recursive && it.node.kind == Directory
    requires NoneRaise(p, WithSep(it.path), Children(it.node), tools)
    ensures ListDir(p, it, tools).queued == DirItems(WithSep(it.path), Children(it.node))
    ensures !ListDir(p, it, tools).crashed
  {
    if it.node.listing.Entries? {
      RecursiveQueuesSubdirs(p, WithSep(it.path), it.node.listing.children, tools);
    }
  }

  /** Every queued item is a directory. */
  predicate AllDirs(q: seq<Item>) {
    forall k | 0 <= k < |q| :: q[k].node.kind == Directory
  }

  lemma AllDirsAppend(a: seq<Item>, b: seq<Item>)
    requires AllDirs(a) && AllDirs(b)
    ensures AllDirs(a + b)
  {
    forall k | 0 <= k < |a + b|
      ensures (a + b)[k].node.kind == Directory
    {
      if k < |a| {
        assert (a + b)[k] == a[k];
      } else {
        assert (a + b)[k] == b[k - |a|];
      }
    }
  }

  /** One step of a quiet `-r` walk: the head's subdirectories join the
      queue, which stays a queue of quiet directories and gets lighter, and
      the tree reference splits the same way. */
  lemma RecursiveStep(p: Params, q: seq<Item>, tools: Tools)
    requires q != [] && p.recursive && AllDirs(q) && QuietAll(p, q, tools)
    ensures var d := DirItems(WithSep(q[0].path), Children(q[0].node));
            var q' := q[1..] + d;
            Weight(q') < Weight(q) && AllDirs(q') && QuietAll(p, q', tools) &&
            WalkQueue(p, q, tools) ==
              Outcome(ListDir(p, q[0], tools).lines + WalkQueue(p, q', tools).lines,
                      [q[0]] + WalkQueue(p, q', tools).dequeued, WalkQueue(p, q', tools).crashed) &&
            TreeDirsAll(q) == [q[0]] + TreeDirsAll(d) + TreeDirsAll(q[1..]) &&
            TreeDirsAll(q') == TreeDirsAll(q[1..]) + TreeDirsAll(d)
  {
    var it := q[0];
    var d := DirItems(WithSep(it.path), Children(it.node));
    assert Quiet(p, it, tools) && QuietAll(p, q[1..], tools);
    assert AllDirs(q[1..]) by {
      forall k | 0 <= k < |q[1..]|
        ensures q[1..][k].node.kind == Directory
      {
        assert q[1..][k] == q[k + 1];
      }
    }
    RecursiveListDir(p, it, tools);
    WalkStep(p, q, tools);
    WeightAppend(q[1..], d);
    QuietAllAppend(p, q[1..], d, tools);
    AllDirsAppend(q[1..], d);
    TreeDirsAllAppend(q[1..], d);
  }

  /** With `-r`, a walk from directories in whose trees no test raises does
      not crash, and dequeues every directory of those trees exactly once:
      breadth-first order changes the order, not the items. */
  lemma {:induction false} RecursiveWalk(p: Params, q: seq<Item>, tools: Tools)
    requires p.recursive && AllDirs(q) && QuietAll(p, q, tools)
    ensures !WalkQueue(p, q, tools).crashed
    ensures multiset(WalkQueue(p, q, tools).dequeued) == multiset(TreeDirsAll(q))
    decreases Weight(q)
  {
    if q != [] {
      var d := DirItems(WithSep(q[0].path), Children(q[0].node));
      RecursiveStep(p, q, tools);
      RecursiveWalk(p, q[1..] + d, tools);
    }
  }

  /** A `-r` search from a root directory, where neither the root's own test
      nor any test below it raises, dequeues every directory of the tree
      exactly once and does not crash. */
  lemma RecursiveSearchVisitsTree(p: Params, root: Item, tools: Tools)
    requires p.recursive && root.node.kind == Directory
    requires !ValidFile(root.path, root.node, p, tools.search).Raise?
    requires Quiet(p, root, tools)
    ensures !SearchSpec(p, root, tools).crashed
    ensures multiset(SearchSpec(p, root, tools).dequeued) == multiset(TreeDirs(root))
  {
    assert [root][1..] == [];
    assert AllDirs([root]) && QuietAll(p, [root], tools);
    RecursiveWalk(p, [root], tools);
    assert TreeDirsAll([root]) == TreeDirs(root) + [];
  }

  // ---------------------------------------------------------------------------
  // What the walk prints

  /** The report lines of the entries `es` of directory `dir` that pass, in
      listing order. */
  function EntryLines(p: Params, dir: string, es: seq<Node>, tools: Tools): seq<string>
    decreases |es|
  {
    if es == [] then []
    else
      var path := dir + es[0].name;
      (if ValidFile(path, es[0], p, tools.search) == Pass then [FileInfo(path, es[0], tools.decimal)] else []) +
      EntryLines(p, dir, es[1..], tools)
  }

  /** When no test raises, the listing loop prints exactly the lines of the
      passing entries, in listing order. */
  lemma {:induction false} QuietLines(p: Params, dir: string, es: seq<Node>, tools: Tools)
    requires NoneRaise(p, dir, es, tools)
    ensures ScanEntries(p, dir, es, tools).lines == EntryLines(p, dir, es, tools)
    decreases |es|
  {
    if es != [] {
      assert !ValidFile(dir + es[0].name, es[0], p, tools.search).Raise?;
      assert NoneRaise(p, dir, es[1..], tools) by {
        forall k | 0 <= k < |es[1..]|
          ensures !ValidFile(dir + es[1..][k].name, es[1..][k], p, tools.search).Raise?
        {
          assert es[1..][k] == es[k + 1];
        }
      }
      QuietLines(p, dir, es[1..], tools);
    }
  }

  /** The lines that listing each of the items `d`, in order, prints. */
  function DirLines(p: Params, d: seq<Item>, tools: Tools): seq<string>
    decreases |d|
  {
    if d == [] then [] else ListDir(p, d[0], tools).lines + DirLines(p, d[1..], tools)
  }

  /** The walk prints nothing but the listings of the items it dequeues, in
      the order it dequeues them, up to and including the one that crashes. */
  lemma {:induction false} WalkLinesAreListings(p: Params, q: seq<Item>, tools: Tools)
    ensures WalkQueue(p, q, tools).lines == DirLines(p, WalkQueue(p, q, tools).dequeued, tools)
    decreases Weight(q)
  {
    if q != [] {
      var l := ListDir(p, q[0], tools);
      WalkStep(p, q, tools);
      if l.crashed {
        assert DirLines(p, [q[0]], tools) == l.lines + DirLines(p, [], tools);
      } else {
        var q' := q[1..] + l.queued;
        WeightAppend(q[1..], l.queued);
        WalkLinesAreListings(p, q', tools);
        var x := WalkQueue(p, q', tools).dequeued;
        assert ([q[0]] + x)[0] == q[0] && ([q[0]] + x)[1..] == x;
      }
    }
  }

  /** `search(params)` prints the header, the root's line when the root
      passes, and then the listings of the dequeued directories in order. */
  lemma SearchLines(p: Params, root: Item, tools: Tools)
    ensures var o := SearchSpec(p, root, tools);
            o.lines ==
              [Header] +
              (if ValidFile(root.path, root.node, p, tools.search) == Pass
               then [FileInfo(root.path, root.node, tools.decimal)] else []) +
              DirLines(p, o.dequeued, tools)
  {
    if !ValidFile(root.path, root.node, p, tools.search).Raise? {
      WalkLinesAreListings(p, [root], tools);
    }
  }

  /** What a directory's listing prints, from the tree alone, when no test
      raises: one `Cannot open` line when it refuses its listing, otherwise
      the lines of its passing entries. */
  function DirReport(p: Params, it: Item, tools: Tools): seq<string> {
    var dir := WithSep(it.path);
    if it.node.listing.Denied? then [CannotOpen(dir)] else EntryLines(p, dir, Children(it.node), tools)
  }

  function Reports(p: Params, d: seq<Item>, tools: Tools): seq<string>
    decreases |d|
  {
    if d == [] then [] else DirReport(p, d[0], tools) + Reports(p, d[1..], tools)
  }

  /** Listing a directory in whose entries no test raises prints its report. */
  lemma QuietListDir(p: Params, it: Item, tools: Tools)
    requires it.node.kind == Directory
    requires NoneRaise(p, WithSep(it.path), Children(it.node), tools)
    ensures ListDir(p, it, tools).lines == DirReport(p, it, tools)
  {
    if it.node.listing.Entries? {
      QuietLines(p, WithSep(it.path), it.node.listing.children, tools);
    }
  }

  /** With `-r`, a walk from directories in whose trees no test raises prints
      the report of each directory it dequeues, in the order it dequeues
      them. */
  lemma {:induction false} RecursiveLines(p: Params, q: seq<Item>, tools: Tools)
    requires p.recursive && AllDirs(q) && QuietAll(p, q, tools)
    ensures WalkQueue(p, q, tools).lines == Reports(p, WalkQueue(p, q, tools).dequeued, tools)
    decreases Weight(q)
  {
    if q != [] {
      var q' := q[1..] + DirItems(WithSep(q[0].path), Children(q[0].node));
      RecursiveStep(p, q, tools);
      assert Quiet(p, q[0], tools);
      QuietListDir(p, q[0], tools);
      RecursiveLines(p, q', tools);
      var x := WalkQueue(p, q', tools).dequeued;
      assert ([q[0]] + x)[0] == q[0] && ([q[0]] + x)[1..] == x;
    }
  }

  /** A `-r` search from a root directory where no test raises prints the
      header, the root's line when it passes, and then, for each directory
      it dequeues (every directory of the tree, once each), the lines of its
      passing entries in listing order. */
  lemma RecursiveSearchLines(p: Params, root: Item, tools: Tools)
    requires p.recursive && root.node.kind == Directory
    requires !ValidFile(root.path, root.node, p, tools.search).Raise?
    requires Quiet(p, root, tools)
    ensures var o := SearchSpec(p, root, tools);
            o.lines ==
              [Header] +
              (if ValidFile(root.path, root.node, p, tools.search) == Pass
               then [FileInfo(root.path, root.node, tools.decimal)] else []) +
              Reports(p, o.dequeued, tools)
  {
    assert AllDirs([root]) && QuietAll(p, [root], tools);
    RecursiveLines(p, [root], tools);
  }
}
