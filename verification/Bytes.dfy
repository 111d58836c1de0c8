/** Octets and the handful of octet constants the proxy cares about. */
module Bytes {
  type byte = b: int | 0 <= b < 256

  const NUL: byte := 0
  const TAB: byte := 9
  const LF: byte := 10
  const CR: byte := 13
  const SPACE: byte := 32
  const PLUS: byte := 43
  const MINUS: byte := 45
  const DOT: byte := 46
  const COLON: byte := 58

  const CRLF: seq<byte> := [CR, LF]

  /** Everything but the last element. */
  function Front<T>(s: seq<T>): seq<T>
    requires s != []
  {
    s[..|s| - 1]
  }

  function Last<T>(s: seq<T>): T
    requires s != []
  {
    s[|s| - 1]
  }

  lemma EmptyConcat<T>(s: seq<T>)
    ensures [] + s == s == s + []
  {
  }

  lemma FrontLast<T>(s: seq<T>)
    requires s != []
    ensures s == Front(s) + [Last(s)]
  {
  }

  lemma FrontConcat<T>(a: seq<T>, b: seq<T>)
    requires b != []
    ensures Front(a + b) == a + Front(b) && Last(a + b) == Last(b)
  {
  }

  lemma Assoc<T>(a: seq<T>, b: seq<T>, c: seq<T>)
    ensures (a + b) + c == a + (b + c)
  {
  }

  lemma PrefixPush<T>(s: seq<T>, i: nat)
    requires i < |s|
    ensures s[..i + 1] == s[..i] + [s[i]]
  {
  }

  /** What has been seen of a chunk after one more element of it. */
  lemma OneMore<T>(seen: seq<T>, chunk: seq<T>, i: nat)
    requires i < |chunk|
    ensures seen + chunk[..i + 1] == (seen + chunk[..i]) + [chunk[i]]
    ensures Front(seen + chunk[..i + 1]) == seen + chunk[..i]
    ensures seen + chunk == (seen + chunk[..i + 1]) + chunk[i + 1..]
  {
  }

  /** Where c first occurs, or |s|. */
  function FirstIndex(s: seq<byte>, c: byte): (i: nat)
    ensures i <= |s|
    ensures i < |s| ==> s[i] == c
    ensures forall j :: 0 <= j < i ==> s[j] != c
  {
    if s == [] || s[0] == c then 0 else 1 + FirstIndex(s[1..], c)
  }

  predicate IsSuffix<T(==)>(suffix: seq<T>, s: seq<T>) {
    |suffix| <= |s| && s[|s| - |suffix|..] == suffix
  }
}

/** A value that may be missing. */
module Options {
  datatype Option<+T> = None | Some(value: T)
}
