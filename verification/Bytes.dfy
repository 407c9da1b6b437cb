/** Byte strings and the result types shared by every module. */
module Bytes {

  type Byte = x: int | 0 <= x < 256

  type ByteString = seq<Byte>

  const CR: Byte := 13
  const LF: Byte := 10
  const CRLF: ByteString := [13, 10]

  datatype Option<+T> = None | Some(value: T)

  datatype Result<+T, +E> = Ok(value: T) | Err(error: E)

  /** All the pieces of a list of strings, in order. */
  function Concat(parts: seq<ByteString>): ByteString {
    if parts == [] then [] else parts[0] + Concat(parts[1..])
  }

  lemma Assoc<T>(a: seq<T>, b: seq<T>, c: seq<T>)
    ensures a + b + c == a + (b + c)
  {
  }

  lemma {:induction false} ConcatAppend(a: seq<ByteString>, b: seq<ByteString>)
    ensures Concat(a + b) == Concat(a) + Concat(b)
  {
    if a == [] {
      assert a + b == b;
    } else {
      assert (a + b)[1..] == a[1..] + b;
      ConcatAppend(a[1..], b);
    }
  }

  /** A 16-bit number, most significant byte first. */
  function Be16(n: int): ByteString
    requires 0 <= n < 0x10000
  {
    [n / 256, n % 256]
  }

  function FromBe16(a: Byte, b: Byte): (n: int) {
    a * 256 + b
  }

  /** Two's complement truncation of an integer to 32 bits. */
  function Int32(n: int): int {
    var u := n % 0x1_0000_0000;
    if u < 0x8000_0000 then u else u - 0x1_0000_0000
  }

  predicate InInt32(n: int) {
    -0x8000_0000 <= n < 0x8000_0000
  }

  /** The 32-bit two's complement image of n, most significant byte first. */
  function Be32(n: int): ByteString {
    var u := n % 0x1_0000_0000;
    [u / 0x100_0000, u / 0x1_0000 % 256, u / 256 % 256, u % 256]
  }

  function FromBe32(s: ByteString): int
    requires |s| == 4
  {
    var a: int, b: int, c: int, d: int := s[0], s[1], s[2], s[3];
    Int32(a * 0x100_0000 + b * 0x1_0000 + c * 256 + d)
  }

  lemma Be16Inverse(n: int)
    requires 0 <= n < 0x10000
    ensures FromBe16(Be16(n)[0], Be16(n)[1]) == n
  {
  }

  lemma Be32Inverse(n: int)
    ensures FromBe32(Be32(n)) == Int32(n)
  {
    var u := n % 0x1_0000_0000;
    var u1 := u / 256;
    var u2 := u1 / 256;
    assert u / 0x1_0000 == u2 && u / 0x100_0000 == u2 / 256;
    assert u == u / 0x100_0000 * 0x100_0000 + u / 0x1_0000 % 256 * 0x1_0000 + u / 256 % 256 * 256 + u % 256;
  }
}
