/** pack and unpack (c/lpack.c): byte order, the codes of a format string, and what they stand for. */
module PackFormat {
  import opened Bytes
  import Endian

  /** What differs between hosts: the order of bytes in memory, and whether char is signed. */
  datatype Machine = Machine(little: bool, signedChar: bool)

  /* ---- Byte order ---- */

  /** doendian: 1 asks for a reversal, 80 for an exchange of the bytes of each pair. */
  function DoEndian(m: Machine, c: char): (swap: int)
    ensures swap in {0, 1, 80, 81}
  {
    var e := if m.little then 1 else 0;
    if c == '<' then 1 - e
    else if c == '{' then 81 - e
    else if c == '>' then e
    else if c == '}' then 80 + e
    else 0
  }

  function Reversed(s: ByteString): ByteString {
    Endian.Reordered(Endian.LittleEndian, s)
  }

  function PairsSwapped(s: ByteString): ByteString
    requires |s| % 2 == 0
  {
    seq(|s|, i requires 0 <= i < |s| => if i % 2 == 0 then s[i + 1] else s[i - 1])
  }

  /** doswap. For the flags there are, 80 and 81, swap ^ 80 is swap - 80. */
  function Swapped(swap: int, s: ByteString): (r: ByteString)
    ensures |r| == |s|
  {
    var t := if swap >= 80 && |s| % 4 == 0 then PairsSwapped(s) else s;
    if (if swap >= 80 then swap - 80 else swap) != 0 then Reversed(t) else t
  }

  /** Exchanging the bytes of pairs and reversing commute, so swapping twice restores the bytes. */
  lemma SwappedTwice(swap: int, s: ByteString)
    ensures Swapped(swap, Swapped(swap, s)) == s
  {
    hide PairsSwapped;
    Endian.ReorderedTwice(Endian.LittleEndian, s);
    if swap >= 80 && |s| % 4 == 0 {
      PairsTwice(s);
      PairsTwice(Reversed(s));
      ReversedPairs(s);
    }
  }

  lemma PairsTwice(s: ByteString)
    requires |s| % 2 == 0
    ensures |PairsSwapped(s)| == |s| && PairsSwapped(PairsSwapped(s)) == s
  {
  }

  lemma ReversedPairs(s: ByteString)
    requires |s| % 2 == 0
    ensures |PairsSwapped(s)| == |s| && Reversed(PairsSwapped(s)) == PairsSwapped(Reversed(s))
  {
    forall i | 0 <= i < |s| ensures Reversed(PairsSwapped(s))[i] == PairsSwapped(Reversed(s))[i] {
      assert (|s| - 1 - i) % 2 == 1 - i % 2;
    }
  }

  lemma OnePair(s: ByteString, i: nat)
    requires |s| % 2 == 0 && i % 2 == 0 && i < |s|
    ensures i + 1 < |s| && PairsSwapped(s)[i] == s[i + 1] && PairsSwapped(s)[i + 1] == s[i]
    ensures PairsSwapped(s)[..i + 2] == PairsSwapped(s)[..i] + [s[i + 1], s[i]]
    ensures s[i..][0] == s[i] && s[i..][1] == s[i + 1] && s[i..][2..] == s[i + 2..]
  {
  }

  lemma Even(n: nat)
    ensures n % 4 == 0 ==> n % 2 == 0
  {
    if n % 4 == 0 {
      var k, m, r := n / 4, n / 2, n % 2;
      assert n == 4 * k && n == 2 * m + r;
      assert r == 2 * (2 * k - m);
    }
  }

  method DoSwap(swap: int, a: array<Byte>)
    modifies a
    ensures a[..] == Swapped(swap, old(a[..]))
  {
    hide PairsSwapped, Endian.Reordered;
    var flag, n := swap, a.Length;
    Even(n);
    if flag >= 80 {
      flag := flag - 80;
      if n % 4 == 0 {
        SwapPairs(a);
      }
    }
    if flag != 0 {
      Endian.ReverseAll(a);
    }
  }

  method SwapPairs(a: array<Byte>)
    requires a.Length % 2 == 0
    modifies a
    ensures a[..] == PairsSwapped(old(a[..]))
  {
    ghost var was := a[..];
    ghost var swapped := PairsSwapped(was);
    var i := 0;
    while i < a.Length
      invariant 0 <= i <= a.Length && i % 2 == 0
      invariant a[..i] == swapped[..i] && a[i..] == was[i..]
    {
      assert a[i] == a[i..][0] && a[i + 1] == a[i..][1];
      OnePair(was, i);
      label before:
      a[i], a[i + 1] := a[i + 1], a[i];
      assert a[i + 2..] == old@before(a[i..])[2..] && a[..i] == old@before(a[..i]);
      assert a[..i + 2] == a[..i] + [a[i], a[i + 1]];
      i := i + 2;
    }
    assert a[..i] == a[..];
  }

  /* ---- Numbers in memory ---- */

  function Limit(size: nat): (n: nat)
    ensures n >= 1
  {
    if size == 0 then 1 else 256 * Limit(size - 1)
  }

  function LeImage(u: nat, size: nat): (s: ByteString)
    ensures |s| == size
  {
    if size == 0 then [] else [u % 256] + LeImage(u / 256, size - 1)
  }

  /** u in size bytes of memory. */
  function Image(m: Machine, u: nat, size: nat): (s: ByteString)
    ensures |s| == size
  {
    if m.little then LeImage(u, size) else Reversed(LeImage(u, size))
  }

  function Number(m: Machine, s: ByteString): nat {
    if m.little then Endian.LittleValue(s) else Endian.BigValue(s)
  }

  lemma {:induction false} LeImageValue(u: nat, size: nat)
    requires u < Limit(size)
    ensures Endian.LittleValue(LeImage(u, size)) == u
  {
    if size > 0 {
      LeImageValue(u / 256, size - 1);
    }
  }

  lemma ImageNumber(m: Machine, u: nat, size: nat)
    requires u < Limit(size)
    ensures Number(m, Image(m, u, size)) == u
  {
    LeImageValue(u, size);
    Endian.LittleValueIsReversedBig(LeImage(u, size));
  }

  predicate InRange(size: nat, signed: bool, v: int) {
    if signed then -(Limit(size) as int) <= 2 * v < Limit(size) else 0 <= v < Limit(size)
  }

  function EncodeInt(m: Machine, size: nat, swap: int, v: int): (s: ByteString)
    ensures |s| == size
  {
    Swapped(swap, Image(m, v % Limit(size), size))
  }

  function DecodeInt(m: Machine, signed: bool, swap: int, s: ByteString): int {
    var u := Number(m, Swapped(swap, s));
    if signed && 2 * u >= Limit(|s|) then u - Limit(|s|) else u
  }

  lemma IntRoundTrip(m: Machine, size: nat, signed: bool, swap: int, v: int)
    requires InRange(size, signed, v)
    ensures DecodeInt(m, signed, swap, EncodeInt(m, size, swap, v)) == v
  {
    hide Swapped, Image, Number, Limit;
    var u := v % Limit(size);
    Wrapped(v, Limit(size));
    SwappedTwice(swap, Image(m, u, size));
    ImageNumber(m, u, size);
  }

  lemma Wrapped(v: int, limit: nat)
    requires 0 < limit && -(limit as int) <= 2 * v && v < limit
    ensures v % limit == if v < 0 then v + limit else v
  {
    if v < 0 {
      assert (v + limit) % limit == v + limit;
    }
  }

  /* ---- Formats ---- */

  datatype Value = VInt(n: int) | VStr(s: ByteString) | VBool(b: bool)

  /** One thing to pack or unpack; bools come eight at a time. A bad code or count is an error when it is reached. */
  datatype Item =
    | Integer(size: nat, signed: bool, swap: int)
    | ZString
    | Counted(size: nat, swap: int)
    | Bools
    | Bad

  predicate IsDigit(c: char) { '0' <= c <= '9' }

  /** The number at the start of f, added to n, and what follows. */
  function Digits(f: string, n: nat): (r: (nat, string))
    ensures |r.1| <= |f|
  {
    if f != [] && IsDigit(f[0]) then Digits(f[1..], 10 * n + (f[0] as int - '0' as int)) else (n, f)
  }

  /** The count after a code: 1 when there are no digits. */
  function CountAfter(f: string): (r: (nat, string))
    ensures |r.1| <= |f|
  {
    if f != [] && IsDigit(f[0]) then Digits(f, 0) else (1, f)
  }

  predicate IsOrder(c: char) { c in "<>={}" }

  predicate IsBlank(c: char) { c in " ," }

  function ItemFor(m: Machine, c: char, swap: int): Item {
    match c
    case 'z' => ZString
    case 'p' => Counted(1, swap)
    case 'P' => Counted(2, swap)
    case 'c' => Integer(1, m.signedChar, swap)
    case 'b' => Integer(1, false, swap)
    case 'h' => Integer(2, true, swap)
    case 'H' => Integer(2, false, swap)
    case 'i' => Integer(4, true, swap)
    case 'I' => Integer(4, false, swap)
    case 'x' => Bools
    case _ => Bad
  }

  function Repeat(item: Item, n: nat): seq<Item> {
    if n == 0 then [] else [item] + Repeat(item, n - 1)
  }

  /** The items of a format, each with the byte order in force. */
  function Items(m: Machine, f: string, swap: int): seq<Item>
    decreases |f|
  {
    if f == [] then []
    else
      var c, count, rest := f[0], CountAfter(f[1..]).0, CountAfter(f[1..]).1;
      if c == 'x' && (count == 0 || count % 8 != 0) then [Bad]
      else if count == 0 then Items(m, rest, swap)
      else if IsOrder(c) then Items(m, rest, DoEndian(m, c))
      else if IsBlank(c) then Items(m, rest, swap)
      else Repeat(ItemFor(m, c, swap), if c == 'x' then count / 8 else count) + Items(m, rest, swap)
  }

  /** Codes of other sizes on other hosts, and 'A', whose number means two different things. */
  predicate Modelled(f: string) {
    forall c :: c in f ==> c !in "AafdnlL"
  }
}
