/** Shared vocabulary of the model. */
module Prelude {

  /** A nullable column, or the result of a lookup that may find no row. */
  datatype Option<+T> = None | Some(value: T)

  /** Prisma's `data: null` / `undefined` / value distinction for one optional input field. */
  function Default<T>(input: Option<T>, otherwise: T): T {
    if input.Some? then input.value else otherwise
  }

  lemma SubsetSize<T>(a: set<T>, b: set<T>)
    requires a <= b
    ensures |a| <= |b|
  {
    assert b == a + (b - a);
  }

  /** A part as large as the whole is the whole. */
  lemma SubsetOfSameSize<T>(a: set<T>, b: set<T>)
    requires a <= b && |a| == |b|
    ensures a == b
  {
    if a != b {
      var x :| x in b && x !in a;
      SubsetSize(a, b - {x});
    }
  }

  function TrimStart(s: string, drop: char -> bool): (r: string)
    ensures |r| <= |s| && (r != [] ==> r[|r| - 1] == s[|s| - 1])
    ensures r != [] ==> !drop(r[0])
    ensures s != [] && !drop(s[0]) ==> r == s
  {
    if s != [] && drop(s[0]) then TrimStart(s[1..], drop) else s
  }

  function TrimEnd(s: string, drop: char -> bool): (r: string)
    ensures |r| <= |s| && (r != [] ==> r[0] == s[0])
    ensures r != [] ==> !drop(r[|r| - 1])
    ensures s != [] && !drop(s[|s| - 1]) ==> r == s
  {
    if s != [] && drop(s[|s| - 1]) then TrimEnd(s[..|s| - 1], drop) else s
  }

  function Trim(s: string, drop: char -> bool): string { TrimEnd(TrimStart(s, drop), drop) }
}
