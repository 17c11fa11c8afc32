/** Small shared vocabulary: an optional value, the path separator and the
    two string tests the tool relies on (`str.endswith(sep)` and `sub in s`). */
module Common {

  datatype Option<T> = None | Some(value: T)

  /** `os.path.sep` on a POSIX host. */
  const Sep: char := '/'

  /** `s.endswith(os.path.sep)` */
  predicate EndsWithSep(s: string) {
    |s| > 0 && s[|s| - 1] == Sep
  }

  /** `s` with the separator appended when it does not already end in one. */
  function WithSep(s: string): (d: string)
    ensures EndsWithSep(d)
    ensures EndsWithSep(s) ==> d == s
    ensures !EndsWithSep(s) ==> d == s + [Sep]
  {
    if EndsWithSep(s) then s else s + [Sep]
  }

  /** Python's `sub in s` on two strings: `sub` occurs in `s` at some offset. */
  predicate Contains(s: string, sub: string) {
    exists i | 0 <= i <= |s| - |sub| :: OccursAt(s, sub, i)
  }

  predicate OccursAt(s: string, sub: string, i: int) {
    0 <= i <= |s| - |sub| && s[i..i + |sub|] == sub
  }

  /** Number of occurrences of `c` in `s`. */
  function Count(s: string, c: char): nat {
    if s == [] then 0 else (if s[0] == c then 1 else 0) + Count(s[1..], c)
  }

  lemma {:induction false} CountAppend(a: string, b: string, c: char)
    ensures Count(a + b, c) == Count(a, c) + Count(b, c)
  {
    if a == [] {
      assert a + b == b;
    } else {
      assert (a + b)[1..] == a[1..] + b;
      CountAppend(a[1..], b, c);
    }
  }
}
