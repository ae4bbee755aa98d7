/** Small value types shared by every module of the project. */
module Common {

  /** A Go pointer, map lookup or `(value, ok)` pair that may hold nothing. */
  datatype Option<+T> = None | Some(value: T)

  /** A Go `(value, error)` pair in which exactly one half is meaningful. */
  datatype Result<+T, +E> = Ok(value: T) | Err(error: E)

  /** No element twice. */
  ghost predicate Distinct<T>(s: seq<T>) {
    forall i, j :: 0 <= i < j < |s| ==> s[i] != s[j]
  }

  /** The first place of x, or the length if it is not there. */
  function IndexOf<T(==)>(s: seq<T>, x: T): (r: nat)
    ensures x in s ==> r < |s| && s[r] == x
    ensures x !in s ==> r == |s|
  {
    if s == [] then 0
    else
      assert s == [s[0]] + s[1..];
      if s[0] == x then 0 else 1 + IndexOf(s[1..], x)
  }
}
