/** The report line of one entry: `file_info` and the size column that
    `memory_String` renders. The `%.1f` rendering of a float is a parameter
    `decimal`. */
module Report {

  import opened Common
  import opened Timestamps
  import opened FileTree

  /** The binary prefixes `memory_String` walks through, in order. */
  const Units: seq<string> := ["", "Ki", "Mi", "Gi", "Ti", "Pi", "Ei", "Zi"]

  function Pow1024(k: nat): (r: nat)
    ensures r >= 1
  {
    if k == 0 then 1 else 1024 * Pow1024(k - 1)
  }

  /** The first unit index `k` from `from` on with `n < 1024^(k+1)`, or 8
      (the `Yi` fallback) when no index below 8 has it. */
  function UnitFrom(n: nat, from: nat): (k: nat)
    requires from <= 8
    ensures from <= k <= 8
    ensures k < 8 ==> n < Pow1024(k + 1)
    ensures forall j | from < j <= k :: n >= Pow1024(j)
    decreases 8 - from
  {
    if from == 8 then 8
    else if n < Pow1024(from + 1) then from
    else UnitFrom(n, from + 1)
  }

  /** The unit index of a size: the least `k` below 8 with `n < 1024^(k+1)`,
      and 8 when there is none. */
  function UnitIndex(n: nat): (k: nat)
    ensures k <= 8
    ensures k < 8 ==> n < Pow1024(k + 1)
    ensures forall j | 0 < j <= k :: n >= Pow1024(j)
  {
    UnitFrom(n, 0)
  }

  /** The unit's name: `Yi` past the eight of the table. */
  function UnitName(k: nat): string {
    if k < |Units| then Units[k] else "Yi"
  }

  /** The number printed: the size divided by 1024 once per unit passed. */
  function Scaled(n: nat): real {
    n as real / Pow1024(UnitIndex(n)) as real
  }

  /** `memory_String(n)`: number, unit, then the suffix `B`. */
  function MemoryText(n: nat, decimal: real -> string): string {
    decimal(Scaled(n)) + UnitName(UnitIndex(n)) + "B"
  }

  lemma DivLess(a: real, d: real, c: real)
    requires d > 0.0
    ensures a / d < c <==> a < c * d
  {
    var q := a / d;
    assert q * d == a;
    if q < c {
      assert q * d < c * d;
    } else {
      assert q * d >= c * d;
    }
  }

  lemma DivDiv(a: real, d: real, c: real)
    requires d > 0.0 && c > 0.0
    ensures a / d / c == a / (d * c)
  {
  }

  /** One turn of the loop: comparing the scaled number with 1024 compares
      the size with the next power, and dividing once more scales by it. */
  lemma DivideStep(x: real, n: nat, k: nat)
    requires x == n as real / Pow1024(k) as real
    ensures x < 1024.0 <==> n < Pow1024(k + 1)
    ensures x / 1024.0 == n as real / Pow1024(k + 1) as real
  {
    var d := Pow1024(k) as real;
    var e := Pow1024(k + 1);
    assert e == 1024 * Pow1024(k);
    assert e as real == 1024.0 * d;
    DivLess(n as real, d, 1024.0);
    DivDiv(n as real, d, 1024.0);
  }

  /** `memory_String(num)`: the `for` loop over the units, dividing by 1024.0
      until the number drops below 1024. Dividing by a power of two is exact,
      so the loop picks `UnitIndex(n)`. */
  method MemoryString(n: nat, decimal: real -> string) returns (s: string)
    ensures s == MemoryText(n, decimal)
  {
    var num: real := n as real;
    var k := 0;
    while k < |Units|
      invariant 0 <= k <= 8
      invariant num == n as real / Pow1024(k) as real
      invariant forall j | 0 < j <= k :: n >= Pow1024(j)
    {
      DivideStep(num, n, k);
      if num < 1024.0 {
        return decimal(num) + Units[k] + "B";
      }
      num := num / 1024.0;
      k := k + 1;
    }
    return decimal(num) + "Yi" + "B";
  }

  /** `file_info(path)`: a regular file gets its time and size, a directory
      its time, anything else a fixed note. */
  function FileInfo(path: string, node: Node, decimal: real -> string): string {
    if node.kind == RegularFile then
      path + "\t" + TimeString(node.mtime) + "\t" + MemoryText(node.size, decimal)
    else if node.kind == Directory then
      path + "\t" + TimeString(node.mtime)
    else
      path + "\t" + NotFileNote
  }

  /** The column for an entry that is neither a file nor a directory. */
  const NotFileNote: string := "Not File or Directory"

  predicate NoTab(s: string) {
    forall i | 0 <= i < |s| :: s[i] != '\t'
  }

  lemma {:induction false} NoTabCount(s: string)
    requires NoTab(s)
    ensures Count(s, '\t') == 0
  {
    if s != [] {
      NoTabCount(s[1..]);
    }
  }

  lemma NoTabAppend(a: string, b: string)
    requires NoTab(a) && NoTab(b)
    ensures NoTab(a + b)
  {
    assert forall i | 0 <= i < |a + b| :: (a + b)[i] == if i < |a| then a[i] else b[i - |a|];
  }

  /** Joining a column that holds no tab adds exactly one tab. */
  lemma TabJoin(a: string, b: string)
    requires NoTab(b)
    ensures Count(a + "\t" + b, '\t') == Count(a, '\t') + 1
    ensures (a + "\t" + b)[..|a| + 1] == a + "\t"
  {
    CountAppend(a, "\t", '\t');
    CountAppend(a + "\t", b, '\t');
    NoTabCount(b);
    assert (a + "\t" + b)[..|a| + 1] == a + "\t";
  }

  lemma NoteNoTab()
    ensures NoTab(NotFileNote)
  {
  }

  /** The size column holds no tab when the rendered number holds none. */
  lemma MemoryTextNoTab(n: nat, decimal: real -> string)
    requires NoTab(decimal(Scaled(n)))
    ensures NoTab(MemoryText(n, decimal))
  {
    var u := UnitName(UnitIndex(n));
    assert NoTab(u);
    NoTabAppend(decimal(Scaled(n)), u);
    NoTabAppend(decimal(Scaled(n)) + u, "B");
  }

  /** The line is the path followed by tab-separated columns: three for a
      file (time and size), two for a directory and for anything else, as
      long as the path and the rendered number hold no tab. */
  lemma FileInfoColumns(path: string, node: Node, decimal: real -> string)
    requires NoTab(path) && NoTab(decimal(Scaled(node.size)))
    ensures var line := FileInfo(path, node, decimal);
            line[..|path| + 1] == path + "\t" &&
            Count(line, '\t') == if node.kind == RegularFile then 2 else 1
  {
    NoTabCount(path);
    if node.kind == RegularFile {
      var t := TimeString(node.mtime);
      var m := MemoryText(node.size, decimal);
      MemoryTextNoTab(node.size, decimal);
      TabJoin(path, t);
      TabJoin(path + "\t" + t, m);
      var line := path + "\t" + t + "\t" + m;
      assert line[..|path| + 1] == (path + "\t" + t + "\t" + m)[..|path + "\t" + t| + 1][..|path| + 1];
    } else if node.kind == Directory {
      TabJoin(path, TimeString(node.mtime));
    } else {
      NoteNoTab();
      TabJoin(path, NotFileNote);
    }
  }
}
