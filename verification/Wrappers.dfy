/** Types that the other modules share. */
module Wrappers {
  /** A value or none: the source's null pointers. */
  datatype Option<+T> = None | Some(value: T)

  /** A byte, as the integer the source promotes it to. */
  type Byte = b: int | 0 <= b < 256

  /** A byte of a network packet. */
  newtype Octet = b: int | 0 <= b < 256

  /** `s` stands in `buf` at `i`. */
  predicate At<T(==)>(buf: seq<T>, i: nat, s: seq<T>) {
    i + |s| <= |buf| && buf[i..i + |s|] == s
  }

  lemma AtParts<T>(buf: seq<T>, i: nat, a: seq<T>, b: seq<T>)
    requires At(buf, i, a + b)
    ensures At(buf, i, a) && At(buf, i + |a|, b)
  {
    var s := buf[i..i + |a| + |b|];
    assert buf[i..i + |a|] == s[..|a|] && buf[i + |a|..i + |a| + |b|] == s[|a|..];
  }

  lemma Regroup<T>(a: seq<T>, b: seq<T>, c: seq<T>)
    ensures (a + b) + c == a + (b + c)
  {
  }
}
