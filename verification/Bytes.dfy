/** Octets, and the two slicing idioms the receive path relies on. */
module Bytes {
  type Byte = b: int | 0 <= b < 256
  type Bytes = seq<Byte>

  /** The two octets that close a DAVE payload (dave.py:19). */
  const MARKER: Bytes := [0xFA, 0xFA]

  predicate EndsWithMarker(s: Bytes) {
    |s| >= 2 && s[|s| - 2..] == MARKER
  }

  /** `s[-n:]`: the last `n` octets, or all of `s` when it is shorter. */
  function LastN(s: Bytes, n: nat): (r: Bytes)
    ensures |r| == if n <= |s| then n else |s|
  {
    if n <= |s| then s[|s| - n..] else s
  }

  /** `s[:-n]` for a positive `n`. */
  function DropLastN(s: Bytes, n: nat): (r: Bytes)
    ensures |r| == if n <= |s| then |s| - n else 0
  {
    if n <= |s| then s[..|s| - n] else []
  }

  /** `s[n:]`. */
  function From(s: Bytes, n: nat): (r: Bytes)
    ensures |r| == if n <= |s| then |s| - n else 0
  {
    if n <= |s| then s[n..] else []
  }

  /** `s[:n]`. */
  function UpTo(s: Bytes, n: nat): (r: Bytes)
    ensures |r| == if n <= |s| then n else |s|
  {
    if n <= |s| then s[..n] else s
  }
}

module Options {
  datatype Option<+T> = None | Some(value: T)
}
