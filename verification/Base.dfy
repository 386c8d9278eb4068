/** Vocabulary shared by every component: bytes, machine limits, optional values, maxima. */
module Base {

  type Byte = b: int | 0 <= b < 256

  type Bytes = seq<Byte>

  const U64_LIMIT: nat := 0x1_0000_0000_0000_0000

  datatype Option<+T> = None | Some(value: T)

  function Max(a: int, b: int): int {
    if a < b then b else a
  }

  function Min(a: int, b: int): int {
    if a < b then a else b
  }

  function Last<T>(s: seq<T>): T
    requires s != []
  {
    s[|s| - 1]
  }

  function Front<T>(s: seq<T>): seq<T>
    requires s != []
  {
    s[..|s| - 1]
  }

  lemma SnocParts<T>(s: seq<T>, x: T)
    ensures Last(s + [x]) == x && Front(s + [x]) == s
  {
  }
}
