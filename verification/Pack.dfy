/** What pack writes and unpack reads for the items of a format, and how the two undo each other (c/lpack.c:213-410). */
module Pack {
  import opened Bytes
  import opened PackFormat

  predicate AllBools(bs: seq<Value>) {
    forall i :: 0 <= i < |bs| ==> bs[i].VBool?
  }

  function Power2(n: nat): (p: nat)
    ensures p >= 1
  {
    if n == 0 then 1 else 2 * Power2(n - 1)
  }

  function Bit(v: Value): nat {
    if v.VBool? && v.b then 1 else 0
  }

  /** The number whose bits are bs, the first the lowest. */
  function BoolsValue(bs: seq<Value>): (n: nat)
    ensures n < Power2(|bs|)
  {
    if bs == [] then 0 else Bit(bs[0]) + 2 * BoolsValue(bs[1..])
  }

  function ByteBools(n: nat, count: nat): (bs: seq<Value>)
    ensures |bs| == count
    decreases count
  {
    if count == 0 then [] else [VBool(n % 2 == 1)] + ByteBools(n / 2, count - 1)
  }

  lemma {:induction false} BoolsRoundTrip(bs: seq<Value>)
    requires AllBools(bs)
    ensures ByteBools(BoolsValue(bs), |bs|) == bs
  {
    if bs != [] {
      BoolsRoundTrip(bs[1..]);
      var n, rest := BoolsValue(bs), BoolsValue(bs[1..]);
      assert n % 2 == Bit(bs[0]) && n / 2 == rest;
    }
  }

  /** Eight bools fit a byte. */
  lemma BoolsFit(bs: seq<Value>)
    requires |bs| == 8
    ensures BoolsValue(bs) < 256
  {
    assert Power2(8) == 2 * Power2(7) == 4 * Power2(6) == 8 * Power2(5) == 16 * Power2(4);
    assert Power2(4) == 16;
  }

  /** How many values an item stands for. */
  function Arity(item: Item): nat {
    if item.Bools? then 8 else 1
  }

  /** The bytes of one item; an error for a value of another kind, or none, or a bad code. Converting a number that
      the code's type cannot hold is undefined in C: the model stops there too. */
  function PackItem(m: Machine, item: Item, xs: seq<Value>): Result<ByteString, string> {
    if item.Bad? then Err("bad code")
    else if |xs| < Arity(item) then Err("value expected")
    else
      match item
      case Integer(size, signed, swap) =>
        if xs[0].VInt? && InRange(size, signed, xs[0].n) then Ok(EncodeInt(m, size, swap, xs[0].n)) else Err("number expected")
      case ZString => if xs[0].VStr? then Ok(xs[0].s + [0]) else Err("string expected")
      case Counted(size, swap) =>
        if xs[0].VStr? then Ok(EncodeInt(m, size, swap, |xs[0].s| % Limit(size)) + xs[0].s) else Err("string expected")
      case Bools =>
        if AllBools(xs[..8]) then BoolsFit(xs[..8]); Ok([BoolsValue(xs[..8])]) else Err("boolean expected")
  }

  function PackItems(m: Machine, items: seq<Item>, xs: seq<Value>): Result<ByteString, string>
    decreases items
  {
    if items == [] then Ok([])
    else
      match PackItem(m, items[0], xs)
      case Err(e) => Err(e)
      case Ok(s) => Prepended(s, PackItems(m, items[1..], Dropped(xs, Arity(items[0]))))
  }

  function Dropped(xs: seq<Value>, n: nat): seq<Value> {
    if n <= |xs| then xs[n..] else []
  }

  function Prepended(s: ByteString, r: Result<ByteString, string>): Result<ByteString, string> {
    match r
    case Ok(t) => Ok(s + t)
    case Err(_) => r
  }

  /** Where the first zero byte from i on is, or the end. */
  function ZeroAt(s: ByteString, i: nat): (k: nat)
    requires i <= |s|
    ensures i <= k <= |s| && (k < |s| ==> s[k] == 0) && forall j :: i <= j < k ==> s[j] != 0
    decreases |s| - i
  {
    if i == |s| || s[i] == 0 then i else ZeroAt(s, i + 1)
  }

  /** One item read at i: its values and the next position, or nothing when s is exhausted. */
  datatype Read = Read(values: seq<Value>, next: nat) | Exhausted | BadCode

  function UnpackItem(m: Machine, item: Item, s: ByteString, i: nat): Read {
    match item
    case Bad => BadCode
    case Integer(size, signed, swap) =>
      if i + size > |s| then Exhausted else Read([VInt(DecodeInt(m, signed, swap, s[i..i + size]))], i + size)
    case ZString =>
      if i >= |s| then Exhausted else Read([VStr(s[i..ZeroAt(s, i)])], ZeroAt(s, i) + 1)
    case Counted(size, swap) =>
      if i + size > |s| then Exhausted
      else
        var l := DecodeInt(m, false, swap, s[i..i + size]);
        if i + size + l > |s| then Exhausted else Read([VStr(s[i + size..i + size + l])], i + size + l)
    case Bools =>
      if i + 1 > |s| then Exhausted else Read(ByteBools(s[i], 8), i + 1)
  }

  datatype Unpacked = Unpacked(values: seq<Value>, next: nat)

  function UnpackItems(m: Machine, items: seq<Item>, s: ByteString, i: nat): Result<Unpacked, string>
    decreases items
  {
    if items == [] then Ok(Unpacked([], i))
    else
      match UnpackItem(m, items[0], s, i)
      case BadCode => Err("bad code")
      case Exhausted => Ok(Unpacked([], i))
      case Read(values, next) => After(values, UnpackItems(m, items[1..], s, next))
  }

  function After(values: seq<Value>, r: Result<Unpacked, string>): Result<Unpacked, string> {
    match r
    case Ok(u) => Ok(Unpacked(values + u.values, u.next))
    case Err(_) => r
  }

  /* ---- One item ---- */

  /** Strings that the item can carry: no zero byte in 'z', and a length that fits for 'p' and 'P'. */
  predicate Carries(item: Item, xs: seq<Value>) {
    |xs| >= 1 && xs[0].VStr? ==>
      match item
      case ZString => 0 !in xs[0].s
      case Counted(size, _) => |xs[0].s| < Limit(size)
      case _ => true
  }

  /** A 'z' string is read up to its first zero byte. */
  lemma ZStringRead(x: ByteString, before: ByteString, after: ByteString)
    ensures var all, i := before + (x + [0]) + after, |before|;
      && ZeroAt(all, i) < |all| && (0 !in x ==> all[i..ZeroAt(all, i)] == x && ZeroAt(all, i) == i + |x|)
      && (0 in x ==> ZeroAt(all, i) < i + |x|)
  {
    var all, i := before + (x + [0]) + after, |before|;
    var k := ZeroAt(all, i);
    assert all[i + |x|] == 0;
    assert forall q {:trigger all[q]} :: i <= q < i + |x| ==> all[q] == x[q - i];
    if 0 in x {
      var j :| 0 <= j < |x| && x[j] == 0;
      assert all[i + j] == 0;
    } else {
      assert all[i..i + |x|] == x;
    }
  }

  /** A counted string is read with the length l that its count says. */
  lemma CountedRead(m: Machine, size: nat, swap: int, x: ByteString, l: nat, before: ByteString, after: ByteString)
    requires l <= |x| && l < Limit(size)
    ensures UnpackItem(m, Counted(size, swap), before + (EncodeInt(m, size, swap, l) + x) + after, |before|) ==
            Read([VStr(x[..l])], |before| + size + l)
  {
    hide EncodeInt, DecodeInt, Limit;
    var head := EncodeInt(m, size, swap, l);
    var all, i := before + (head + x) + after, |before|;
    assert all[i..i + size] == head;
    assert all[i + size..i + size + l] == x[..l];
    IntRoundTrip(m, size, false, swap, l);
  }

  lemma ModAtMost(n: nat, k: nat)
    requires k > 0
    ensures n % k <= n && n % k < k && (n % k == n <==> n < k)
  {
    if n < k {
    } else {
      assert n % k < k;
    }
  }

  /** Reading what was packed for an item, in the middle of other bytes, gives the values back exactly when the item
      can carry them. */
  lemma ItemIff(m: Machine, item: Item, xs: seq<Value>, s: ByteString, before: ByteString, after: ByteString)
    requires PackItem(m, item, xs) == Ok(s)
    ensures var r := UnpackItem(m, item, before + s + after, |before|);
      && |xs| >= Arity(item) && r.Read? && |r.values| == Arity(item)
      && (r.values == xs[..Arity(item)] <==> Carries(item, xs))
      && (Carries(item, xs) ==> r.next == |before| + |s|)
  {
    hide EncodeInt, DecodeInt, InRange, Limit, ZeroAt, BoolsValue, ByteBools;
    var all, i := before + s + after, |before|;
    assert all[i..i + |s|] == s;
    match item {
      case Integer(size, signed, swap) => IntRoundTrip(m, size, signed, swap, xs[0].n);
      case ZString =>
        var x := xs[0].s;
        ZStringRead(x, before, after);
        assert 0 in x ==> |all[i..ZeroAt(all, i)]| < |x|;
        assert xs[..1] == [xs[0]];
      case Counted(size, swap) =>
        var x := xs[0].s;
        ModAtMost(|x|, Limit(size));
        CountedRead(m, size, swap, x, |x| % Limit(size), before, after);
        assert xs[..1] == [xs[0]];
        assert |x| < Limit(size) ==> x[..|x| % Limit(size)] == x;
      case Bools =>
        BoolsRoundTrip(xs[..8]);
        assert all[i] == s[0];
    }
  }

  /* ---- Whole formats ---- */

  /** The number of values a list of items stands for. */
  function Arities(items: seq<Item>): nat {
    if items == [] then 0 else Arity(items[0]) + Arities(items[1..])
  }

  predicate AllCarry(items: seq<Item>, xs: seq<Value>)
    decreases items
  {
    items == [] || (Carries(items[0], xs) && AllCarry(items[1..], Dropped(xs, Arity(items[0]))))
  }

  lemma TwoParts(xs: seq<Value>, n: nat, k: nat)
    requires n + k <= |xs|
    ensures xs[..n] + xs[n..][..k] == xs[..n + k]
  {
  }

  /** unpack(pack(f, xs), f) gives back xs, and a position right behind, exactly when every string in xs can be carried
      by its code. The packed bytes may stand in the middle of others. */
  lemma {:induction false} RoundTripIff(m: Machine, items: seq<Item>, xs: seq<Value>, s: ByteString, before: ByteString,
                                        after: ByteString)
    requires PackItems(m, items, xs) == Ok(s)
    ensures Arities(items) <= |xs|
    ensures var r := UnpackItems(m, items, before + s + after, |before|);
      && (r.Ok? && r.value.values == xs[..Arities(items)] <==> AllCarry(items, xs))
      && (AllCarry(items, xs) ==> r.value.next == |before| + |s|)
    decreases items
  {
    hide PackItem, UnpackItem, Carries;
    if items != [] {
      var item, rest, n := items[0], items[1..], Arity(items[0]);
      var head := PackItem(m, item, xs).value;
      var tail := PackItems(m, rest, Dropped(xs, n)).value;
      assert s == head + tail;
      Assoc(before, head, tail);
      Assoc(before + head, tail, after);
      ItemIff(m, item, xs, head, before, tail + after);
      var r := UnpackItem(m, item, before + s + after, |before|);
      RoundTripIff(m, rest, xs[n..], tail, before + head, after);
      TwoParts(xs, n, Arities(rest));
      if Carries(item, xs) {
        var u := UnpackItems(m, rest, before + s + after, r.next);
        assert before + s + after == before + head + tail + after;
        if u.Ok? {
          SameTail(xs[..n], u.value.values, xs[n..][..Arities(rest)]);
        }
      } else {
        var u := UnpackItems(m, rest, before + s + after, r.next);
        if u.Ok? {
          OtherHead(r.values, u.value.values, xs, n, Arities(items));
        }
      }
    }
  }

  lemma SameTail(a: seq<Value>, b: seq<Value>, c: seq<Value>)
    ensures a + b == a + c <==> b == c
  {
    assert (a + b)[|a|..] == b && (a + c)[|a|..] == c;
  }

  lemma OtherHead(a: seq<Value>, b: seq<Value>, xs: seq<Value>, n: nat, k: nat)
    requires |a| == n <= k <= |xs| && a != xs[..n]
    ensures a + b != xs[..k]
  {
    assert (a + b)[..n] == a && xs[..k][..n] == xs[..n];
  }

  /* ---- Truncated input ---- */

  /** With part of an item's bytes missing at the end, nothing is read. */
  lemma ItemExhausted(m: Machine, item: Item, xs: seq<Value>, s: ByteString, before: ByteString, t: ByteString)
    requires PackItem(m, item, xs) == Ok(s) && Carries(item, xs) && !item.ZString?
    requires t <= s && t != s
    ensures UnpackItem(m, item, before + t, |before|) == Exhausted
  {
    hide EncodeInt, DecodeInt, Limit, BoolsValue;
    if item.Counted? && |t| >= item.size {
      var x := xs[0].s;
      ModAtMost(|x|, Limit(item.size));
      var head := EncodeInt(m, item.size, item.swap, |x|);
      assert (before + t)[|before|..|before| + item.size] == s[..item.size] == head;
      IntRoundTrip(m, item.size, false, item.swap, |x|);
    }
  }

  /** Reading t stops behind the first j items, whose bytes are p: t has these, but not the whole of the next item. */
  ghost predicate StopsAt(m: Machine, items: seq<Item>, xs: seq<Value>, s: ByteString, before: ByteString, t: ByteString,
                          j: nat, p: ByteString) {
    && j <= |items| && PackItems(m, items[..j], xs) == Ok(p) && p <= t && Arities(items[..j]) <= |xs|
    && UnpackItems(m, items, before + t, |before|) == Ok(Unpacked(xs[..Arities(items[..j])], |before| + |p|))
    && if j == |items| then t == s
       else exists q :: PackItems(m, items[..j + 1], xs) == Ok(q) && |t| < |q|
  }

  lemma StopsBehind(m: Machine, items: seq<Item>, xs: seq<Value>, head: ByteString, tail: ByteString, before: ByteString,
                    t: ByteString, j: nat, p: ByteString)
    requires items != [] && Arity(items[0]) <= |xs| && PackItem(m, items[0], xs) == Ok(head) && Carries(items[0], xs)
    requires StopsAt(m, items[1..], xs[Arity(items[0])..], tail, before + head, t, j, p)
    ensures StopsAt(m, items, xs, head + tail, before, head + t, j + 1, head + p)
  {
    hide PackItem, UnpackItem, Carries;
    var rest, n := items[1..], Arity(items[0]);
    Assoc(before, head, t);
    ItemIff(m, items[0], xs, head, before, t);
    FirstItems(m, items, xs, head, j, p);
    TwoParts(xs, n, Arities(rest[..j]));
    if j < |rest| {
      var q :| PackItems(m, rest[..j + 1], xs[n..]) == Ok(q) && |t| < |q|;
      FirstItems(m, items, xs, head, j + 1, q);
    }
  }

  lemma StopsHere(m: Machine, items: seq<Item>, xs: seq<Value>, head: ByteString, s: ByteString, before: ByteString,
                  t: ByteString)
    requires items != [] && PackItem(m, items[0], xs) == Ok(head) && Carries(items[0], xs) && !items[0].ZString?
    requires t <= head && t != head
    ensures StopsAt(m, items, xs, s, before, t, 0, [])
  {
    hide PackItem, UnpackItem, Carries;
    ItemExhausted(m, items[0], xs, head, before, t);
    assert items[..0] == [] && items[..1] == [items[0]] && items[..1][1..] == [];
    assert PackItems(m, items[..1], xs) == Ok(head + []);
  }

  /** Without 'z', any truncation gives the values of the first items, as many as are whole, and the position where the
      first one that is not begins. */
  lemma {:induction false} Truncated(m: Machine, items: seq<Item>, xs: seq<Value>, s: ByteString, before: ByteString,
                                     t: ByteString) returns (j: nat, p: ByteString)
    requires PackItems(m, items, xs) == Ok(s) && AllCarry(items, xs) && t <= s
    requires forall i :: 0 <= i < |items| ==> !items[i].ZString?
    ensures StopsAt(m, items, xs, s, before, t, j, p)
    decreases items
  {
    hide PackItem, UnpackItem, Carries;
    j, p := 0, [];
    if items == [] {
      assert items[..0] == [];
    } else {
      var item, rest, n := items[0], items[1..], Arity(items[0]);
      var head := PackItem(m, item, xs).value;
      var tail := PackItems(m, rest, Dropped(xs, n)).value;
      ItemIff(m, item, xs, head, [], []);
      if |t| < |head| {
        assert t == s[..|t|] == head[..|t|];
        StopsHere(m, items, xs, head, s, before, t);
      } else {
        var t' := t[|head|..];
        assert t == head + t' && t' == s[|head|..][..|t'|] && s[|head|..] == tail;
        j, p := Truncated(m, rest, xs[n..], tail, before + head, t');
        StopsBehind(m, items, xs, head, tail, before, t', j, p);
        j, p := j + 1, head + p;
      }
    }
  }

  lemma FirstItems(m: Machine, items: seq<Item>, xs: seq<Value>, head: ByteString, j: nat, p: ByteString)
    requires items != [] && j < |items| && PackItem(m, items[0], xs) == Ok(head)
    requires PackItems(m, items[1..][..j], Dropped(xs, Arity(items[0]))) == Ok(p)
    ensures PackItems(m, items[..j + 1], xs) == Ok(head + p)
    ensures Arities(items[..j + 1]) == Arity(items[0]) + Arities(items[1..][..j])
  {
    assert items[..j + 1][1..] == items[1..][..j];
  }
}
