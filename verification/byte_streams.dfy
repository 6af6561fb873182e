/** Bytes, optional values and the little sequence vocabulary shared by all modules. */
module ByteStreams {

  newtype byte = x: int | 0 <= x < 256

  type bytes = seq<byte>

  const NEWLINE: byte := 10
  const CARRIAGE_RETURN: byte := 13

  datatype Option<+T> = None | Some(value: T)

  datatype Result<+T, +E> = Success(value: T) | Failure(error: E)

  /** How many bytes follow the last newline of `s`. */
  function TailLength(s: bytes): (n: nat)
    ensures n <= |s|
  {
    if s == [] || s[|s| - 1] == NEWLINE then 0 else 1 + TailLength(s[..|s| - 1])
  }

  lemma SizeWithout<T>(s: set<T>, x: T)
    ensures |s| == |s - {x}| + (if x in s then 1 else 0)
  {
    assert x in s ==> s == (s - {x}) + {x};
    assert x !in s ==> s == s - {x};
  }

  lemma DisjointSize<T>(a: set<T>, b: set<T>)
    requires a !! b
    ensures |a + b| == |a| + |b|
  {
  }

  lemma CutAt<T>(s: seq<T>, i: nat)
    requires i < |s|
    ensures s == s[..i] + [s[i]] + s[i + 1..]
  {
  }

  lemma CutInside<T>(s: seq<T>, more: seq<T>, i: nat)
    requires i < |s|
    ensures var all := s + more; all[..i] == s[..i] && all[i] == s[i] && all[i + 1..] == s[i + 1..] + more
  {
  }
}
