/** The file system as the search sees it: a finite tree of entries, each
    with what `os.path.isfile`/`isdir`, `getmtime`, `getsize`, `open` and
    `listdir` would report for it. */
module FileTree {

  import opened Timestamps

  /** A modification time as `datetime.fromtimestamp` reports it. */
  type Stamp = t: DateTime | Valid(t) witness DateTime(1970, 1, 1, 0, 0, 0, 0)

  /** `Missing` is a name `listdir` reports but `getmtime` cannot stat (a
      dangling link). `Forbidden` is a name in a directory that may be
      listed but not searched: every stat of it raises `PermissionError`,
      so `isfile` and `isdir` are false for it. `Special` is anything else
      that is neither a regular file nor a directory. */
  datatype Kind = RegularFile | Directory | Special | Missing | Forbidden

  /** What iterating over `open(file, encoding='utf-8')` yields: the lines
      delivered (each with its line end), and whether a `UnicodeDecodeError`
      follows them; or `open` itself raising `PermissionError`. */
  datatype Content = Text(lines: seq<string>, decodeError: bool) | Unreadable

  /** What `os.listdir` returns, in its order, or its `PermissionError`. */
  datatype Listing = Entries(children: seq<Node>) | Denied

  datatype Node = Node(name: string, kind: Kind, mtime: Stamp, size: nat,
                       content: Content, listing: Listing)

  /** The entries a node lists; none when it cannot be listed. */
  function Children(n: Node): (r: seq<Node>)
    ensures SizeOf(r) < Size(n)
  {
    if n.listing.Entries? then n.listing.children else []
  }

  /** The number of nodes in the tree under `n`, `n` included. */
  function Size(n: Node): (r: nat)
    ensures r >= 1
    decreases n, 1
  {
    1 + (match n.listing
         case Entries(children) => SizeOf(children)
         case Denied => 0)
  }

  /** The number of nodes in the trees of a sequence of entries. */
  function SizeOf(s: seq<Node>): nat
    decreases s, 0
  {
    if s == [] then 0 else Size(s[0]) + SizeOf(s[1..])
  }
}
