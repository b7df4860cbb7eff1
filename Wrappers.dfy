/** Small shared vocabulary: optional values (Java's nullable references) and octets. */
module Wrappers {
  /** A Java reference that may be null. */
  datatype Option<T> = None | Some(value: T)

  /** An unsigned octet as it travels on a wire or in a byte buffer. */
  type byte = x: int | 0 <= x < 256

  /** The low eight bits of a Java int, as `ByteArrayOutputStream.write(int)` keeps them. */
  function LowByte(x: int): (b: byte)
    ensures 0 <= x < 256 ==> b == x
    ensures (x - b) % 256 == 0
  {
    x % 256
  }

  /** A subset is no larger than its superset. */
  lemma SubsetCard<T>(a: set<T>, b: set<T>)
    requires a <= b
    ensures |a| <= |b|
  {
    assert b == a + (b - a);
    assert a !! (b - a);
  }
}
