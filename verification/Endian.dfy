/** Host to network byte order (c/awt_endian.c). */
module Endian {
  import opened Bytes

  datatype Order = BigEndian | LittleEndian | MiddleBigEndian | MiddleLittleEndian

  /** Where the byte that ends up at index i of n comes from. */
  function Origin(order: Order, n: nat, i: nat): (k: nat)
    requires i < n
    ensures k < n
  {
    var mid := n / 2;
    match order
    case BigEndian => i
    case LittleEndian => n - 1 - i
    case MiddleBigEndian => if i < mid then i + mid else if i < 2 * mid then i - mid else i
    case MiddleLittleEndian =>
      if i < mid then mid - 1 - i else if i < 2 * mid then 3 * mid - 1 - i else i
  }

  function Reordered(order: Order, s: ByteString): ByteString {
    seq(|s|, i requires 0 <= i < |s| => s[Origin(order, |s|, i)])
  }

  /** hton: one of three in-place swap loops, chosen by the host's order. */
  method Hton(a: array<Byte>, order: Order)
    modifies a
    ensures a[..] == Reordered(order, old(a[..]))
  {
    match order
    case BigEndian =>
    case LittleEndian => ReverseAll(a);
    case MiddleBigEndian => SwapHalves(a);
    case MiddleLittleEndian => ReverseHalves(a);
  }

  method ReverseAll(a: array<Byte>)
    modifies a
    ensures a[..] == Reordered(LittleEndian, old(a[..]))
  {
    var n := a.Length;
    var i, j, left := 0, n - 1, n / 2;
    while left > 0
      invariant 0 <= left == n / 2 - i && j == n - 1 - i
      invariant forall k :: 0 <= k < i ==> a[k] == old(a[n - 1 - k]) && a[n - 1 - k] == old(a[k])
      invariant forall k :: i <= k < n - i ==> a[k] == old(a[k])
    {
      a[i], a[j] := a[j], a[i];
      i, j, left := i + 1, j - 1, left - 1;
    }
    forall k | 0 <= k < n ensures a[k] == old(a[n - 1 - k]) {
      if k >= n - i {
        assert k == n - 1 - (n - 1 - k);
      }
    }
  }

  method SwapHalves(a: array<Byte>)
    modifies a
    ensures a[..] == Reordered(MiddleBigEndian, old(a[..]))
  {
    var mid := a.Length / 2;
    var i, j, left := 0, mid, mid;
    while left > 0
      invariant 0 <= left == mid - i && j == mid + i
      invariant forall k :: 0 <= k < i ==> a[k] == old(a[mid + k]) && a[mid + k] == old(a[k])
      invariant forall k :: i <= k < mid || mid + i <= k < a.Length ==> a[k] == old(a[k])
    {
      a[i], a[j] := a[j], a[i];
      i, j, left := i + 1, j + 1, left - 1;
    }
    forall k | mid <= k < 2 * mid ensures a[k] == old(a[k - mid]) {
      assert k == mid + (k - mid);
    }
  }

  method ReverseHalves(a: array<Byte>)
    modifies a
    ensures a[..] == Reordered(MiddleLittleEndian, old(a[..]))
  {
    hide HalvesSoFar, Reordered;
    var n := a.Length;
    var mid := n / 2;
    ghost var was := a[..];
    HalvesEnds(was);
    var i, j, left := 0, mid - 1, n / 4;
    while left > 0
      invariant 0 <= left == n / 4 - i && j == mid - 1 - i
      invariant a[..] == HalvesSoFar(was, i)
    {
      HalvesStep(was, i);
      a[i], a[j] := a[j], a[i];
      a[i + mid], a[j + mid] := a[j + mid], a[i + mid];
      i, j, left := i + 1, j - 1, left - 1;
    }
  }

  /** The first i bytes of each half have been exchanged with the last i of that half. */
  function HalvesSoFar(s: ByteString, i: nat): (r: ByteString)
    ensures |r| == |s|
  {
    var mid := |s| / 2;
    seq(|s|, k requires 0 <= k < |s| =>
      if k < mid then if k < i || mid - i <= k then s[mid - 1 - k] else s[k]
      else if k < 2 * mid && (k < mid + i || 2 * mid - i <= k) then s[3 * mid - 1 - k]
      else s[k])
  }

  lemma HalvesStep(s: ByteString, i: nat)
    requires i < |s| / 4
    ensures var mid, t := |s| / 2, HalvesSoFar(s, i);
      var j := mid - 1 - i;
      var u := t[i := t[j]][j := t[i]];
      HalvesSoFar(s, i + 1) == u[i + mid := u[j + mid]][j + mid := u[i + mid]]
  {
  }

  lemma HalvesEnds(s: ByteString)
    ensures HalvesSoFar(s, 0) == s && HalvesSoFar(s, |s| / 4) == Reordered(MiddleLittleEndian, s)
  {
  }

  lemma ReorderedTwice(order: Order, s: ByteString)
    ensures Reordered(order, Reordered(order, s)) == s
  {
    hide Origin;
    forall i: nat | i < |s| ensures Reordered(order, Reordered(order, s))[i] == s[i] {
      OriginTwice(order, |s|, i);
    }
  }

  lemma OriginTwice(order: Order, n: nat, i: nat)
    requires i < n
    ensures Origin(order, n, Origin(order, n, i)) == i
  {
  }

  function BigValue(s: ByteString): nat {
    if s == [] then 0 else BigValue(s[..|s| - 1]) * 256 + s[|s| - 1]
  }

  function LittleValue(s: ByteString): nat {
    if s == [] then 0 else s[0] + 256 * LittleValue(s[1..])
  }

  /** The unsigned number that a host of the given order holds in the bytes s. */
  function HostValue(order: Order, s: ByteString): nat
    requires |s| % 2 == 0
  {
    var mid := |s| / 2;
    match order
    case BigEndian => BigValue(s)
    case LittleEndian => LittleValue(s)
    case MiddleBigEndian => BigValue(s[mid..] + s[..mid])
    case MiddleLittleEndian => Shifted(LittleValue(s[..mid]), mid) + LittleValue(s[mid..])
  }

  /** n moved up by k bytes. */
  function Shifted(n: nat, k: nat): nat {
    if k == 0 then n else 256 * Shifted(n, k - 1)
  }

  lemma {:induction false} LittleValueIsReversedBig(s: ByteString)
    ensures BigValue(Reordered(LittleEndian, s)) == LittleValue(s)
  {
    if s != [] {
      var r := Reordered(LittleEndian, s);
      assert r[..|s| - 1] == Reordered(LittleEndian, s[1..]);
      LittleValueIsReversedBig(s[1..]);
    }
  }

  lemma {:induction false} BigValueAppend(a: ByteString, b: ByteString)
    ensures BigValue(a + b) == Shifted(BigValue(a), |b|) + BigValue(b)
  {
    if b == [] {
      assert a + b == a;
    } else {
      var m := b[..|b| - 1];
      assert (a + b)[..|a + b| - 1] == a + m;
      BigValueAppend(a, m);
    }
  }

  /** Whatever the host's order, the converted bytes are the host's number in network order. */
  lemma NetworkOrder(order: Order, s: ByteString)
    requires |s| % 2 == 0
    ensures BigValue(Reordered(order, s)) == HostValue(order, s)
  {
    var mid := |s| / 2;
    var r := Reordered(order, s);
    match order
    case BigEndian =>
      assert r == s;
    case LittleEndian =>
      LittleValueIsReversedBig(s);
    case MiddleBigEndian =>
      assert r == s[mid..] + s[..mid];
    case MiddleLittleEndian =>
      var hi, lo := Reordered(LittleEndian, s[..mid]), Reordered(LittleEndian, s[mid..]);
      assert r == hi + lo;
      BigValueAppend(hi, lo);
      LittleValueIsReversedBig(s[..mid]);
      LittleValueIsReversedBig(s[mid..]);
  }
}
