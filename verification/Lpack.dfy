/** The two interpreters of c/lpack.c, over a format string and byte arrays. */
module Lpack {
  import opened Bytes
  import opened PackFormat
  import opened Pack

  /** The rest of the items when the code c still has n rounds to go before the format continues with f. */
  function Rounds(m: Machine, c: char, n: nat, f: string, swap: int): seq<Item> {
    if n == 0 then Items(m, f, swap)
    else if IsOrder(c) then Items(m, f, DoEndian(m, c))
    else if IsBlank(c) then Items(m, f, swap)
    else Repeat(ItemFor(m, c, swap), n) + Items(m, f, swap)
  }

  lemma NextRound(m: Machine, c: char, n: nat, f: string, swap: int)
    requires n > 0 && !IsOrder(c) && !IsBlank(c)
    ensures Rounds(m, c, n, f, swap) == [ItemFor(m, c, swap)] + Rounds(m, c, n - 1, f, swap)
  {
    Assoc([ItemFor(m, c, swap)], Repeat(ItemFor(m, c, swap), n - 1), Items(m, f, swap));
    if n == 1 {
      assert Repeat(ItemFor(m, c, swap), 0) == [];
    }
  }

  /** The count behind a code at position at, and the position behind it. */
  method ReadCount(f: string, at: nat) returns (n: nat, next: nat)
    requires at <= |f|
    ensures at <= next <= |f| && (n, f[next..]) == CountAfter(f[at..])
  {
    n, next := 1, at;
    if next < |f| && IsDigit(f[next]) {
      n := 0;
      while next < |f| && IsDigit(f[next])
        invariant at <= next <= |f| && Digits(f[next..], n) == Digits(f[at..], 0)
      {
        assert f[next..][1..] == f[next + 1..];
        n, next := 10 * n + (f[next] as int - '0' as int), next + 1;
      }
    }
  }

  /** PACKNUMBER: the value's memory, swapped in place. */
  method PackNumber(m: Machine, size: nat, swap: int, v: int) returns (s: ByteString)
    ensures s == EncodeInt(m, size, swap, v)
  {
    var image := Image(m, v % Limit(size), size);
    var a := new Byte[size](k requires 0 <= k < size => image[k]);
    assert a[..] == image;
    DoSwap(swap, a);
    s := a[..];
  }

  /** UNPACKINTEGER: the bytes copied and swapped in place. */
  method UnpackNumber(m: Machine, signed: bool, swap: int, s: ByteString) returns (v: int)
    ensures v == DecodeInt(m, signed, swap, s) && (!signed ==> v >= 0)
  {
    var a := new Byte[|s|](k requires 0 <= k < |s| => s[k]);
    assert a[..] == s;
    DoSwap(swap, a);
    var u := Number(m, a[..]);
    v := if signed && 2 * u >= Limit(|s|) then u - Limit(|s|) else u;
  }

  /** PACKBOOL */
  method PackBools(xs: seq<Value>) returns (r: Result<ByteString, string>)
    requires |xs| >= 8
    ensures r == PackItem(Machine(true, true), Bools, xs)
  {
    var a, weight := 0, 1;
    ghost var bs := xs[..8];
    for k := 0 to 8
      invariant a + weight * BoolsValue(bs[k..]) == BoolsValue(bs)
      invariant forall i :: 0 <= i < k ==> bs[i].VBool?
    {
      if !xs[k].VBool? { return Err("boolean expected"); }
      assert bs[k..][1..] == bs[k + 1..];
      Weighted(a, weight, Bit(bs[k]), BoolsValue(bs[k + 1..]));
      a, weight := a + weight * Bit(xs[k]), 2 * weight;
    }
    BoolsFit(bs);
    assert weight * BoolsValue(bs[8..]) == 0;
    return Ok([a]);
  }

  lemma Weighted(a: int, weight: int, bit: int, rest: int)
    ensures a + weight * (bit + 2 * rest) == a + weight * bit + 2 * weight * rest
  {
  }

  /** UNPACKBOOL */
  method UnpackBools(n: nat) returns (bs: seq<Value>)
    ensures bs == ByteBools(n, 8)
  {
    bs := [];
    var a := n;
    for k := 0 to 8
      invariant bs + ByteBools(a, 8 - k) == ByteBools(n, 8)
    {
      Assoc(bs, [VBool(a % 2 == 1)], ByteBools(a / 2, 8 - k - 1));
      bs := bs + [VBool(a % 2 == 1)];
      a := a / 2;
    }
    assert bs + [] == bs;
  }

  /** One case of pack's switch, for the values from xs on. */
  method PackValue(m: Machine, item: Item, xs: seq<Value>) returns (r: Result<ByteString, string>)
    ensures r == PackItem(m, item, xs)
  {
    if item.Bad? { return Err("bad code"); }
    if |xs| < Arity(item) { return Err("value expected"); }
    match item {
      case Integer(size, signed, swap) =>
        if !xs[0].VInt? || !InRange(size, signed, xs[0].n) { return Err("number expected"); }
        var s := PackNumber(m, size, swap, xs[0].n);
        return Ok(s);
      case ZString =>
        if !xs[0].VStr? { return Err("string expected"); }
        return Ok(xs[0].s + [0]);
      case Counted(size, swap) =>
        if !xs[0].VStr? { return Err("string expected"); }
        var s := PackNumber(m, size, swap, |xs[0].s| % Limit(size));
        return Ok(s + xs[0].s);
      case Bools => r := PackBools(xs);
    }
  }

  /** pack's inner loop: the rounds of one code. b is what has been written, i how many values have been used, and f
      the format behind the code. */
  method PackRounds(m: Machine, c: char, count: nat, swap: int, xs: seq<Value>, i: nat, b: ByteString, ghost f: string)
    returns (err: Option<string>, swap': int, i': nat, b': ByteString)
    requires i <= |xs|
    ensures i' <= |xs|
    ensures Prepended(b, PackItems(m, Rounds(m, c, count, f, swap), xs[i..])) ==
            if err.Some? then Err(err.value) else Prepended(b', PackItems(m, Items(m, f, swap'), xs[i'..]))
  {
    hide Items, PackItem, DoEndian, Repeat, ItemFor, Arity;
    err, swap', i', b' := None, swap, i, b;
    var n := count;
    ghost var total := Prepended(b, PackItems(m, Rounds(m, c, count, f, swap), xs[i..]));
    while n > 0
      invariant i' <= |xs|
      invariant total == Prepended(b', PackItems(m, Rounds(m, c, n, f, swap'), xs[i'..]))
      decreases n
    {
      if IsOrder(c) {
        swap', n := DoEndian(m, c), 0;
      } else if IsBlank(c) {
        n := n - 1;
      } else {
        var item := ItemFor(m, c, swap');
        NextRound(m, c, n, f, swap');
        ghost var items := Rounds(m, c, n, f, swap');
        assert items[0] == item && items[1..] == Rounds(m, c, n - 1, f, swap');
        var one := PackValue(m, item, xs[i'..]);
        if one.Err? { return Some(one.error), swap', i', b'; }
        Enough(m, item, xs[i'..]);
        assert xs[i'..][Arity(item)..] == xs[i' + Arity(item)..];
        PrependedTwice(b', one.value, PackItems(m, items[1..], xs[i' + Arity(item)..]));
        b', i', n := b' + one.value, i' + Arity(item), n - 1;
      }
    }
  }

  lemma Enough(m: Machine, item: Item, xs: seq<Value>)
    requires PackItem(m, item, xs).Ok?
    ensures Arity(item) <= |xs|
  {
  }

  /** l_pack */
  method LPack(m: Machine, f: string, xs: seq<Value>) returns (r: Result<ByteString, string>)
    requires Modelled(f)
    ensures r == PackItems(m, Items(m, f, 0), xs)
  {
    hide PackItem, DoEndian, Repeat, ItemFor, CountAfter;
    var b: ByteString := [];
    var swap: int, at: nat, i: nat := 0, 0, 0;
    ghost var total := PackItems(m, Items(m, f, 0), xs);
    assert f[0..] == f && xs[0..] == xs;
    NothingBefore(total);
    while at < |f|
      invariant at <= |f| && i <= |xs|
      invariant total == Prepended(b, PackItems(m, Items(m, f[at..], swap), xs[i..]))
      decreases |f| - at
    {
      var c := f[at];
      assert f[at..][0] == c && f[at..][1..] == f[at + 1..];
      var n;
      n, at := ReadCount(f, at + 1);
      if c == 'x' && (n == 0 || n % 8 != 0) {
        BadFirst(m, xs[i..]);
        return Err("bad code");
      }
      if c == 'x' { n := n / 8; }
      var err;
      err, swap, i, b := PackRounds(m, c, n, swap, xs, i, b, f[at..]);
      if err.Some? { return Err(err.value); }
    }
    assert f[at..] == [] && b + [] == b;
    return Ok(b);
  }

  lemma NothingBefore(r: Result<ByteString, string>)
    ensures Prepended([], r) == r
  {
    if r.Ok? {
      assert [] + r.value == r.value;
    }
  }

  lemma BadFirst(m: Machine, xs: seq<Value>)
    ensures PackItems(m, [Bad], xs) == Err("bad code")
  {
  }

  lemma PrependedTwice(a: ByteString, b: ByteString, r: Result<ByteString, string>)
    ensures Prepended(a, Prepended(b, r)) == Prepended(a + b, r)
  {
    if r.Ok? {
      Assoc(a, b, r.value);
    }
  }

  /** strlen, from i on. */
  method StrLen(s: ByteString, i: nat) returns (l: nat)
    requires i <= |s|
    ensures i + l == ZeroAt(s, i)
  {
    l := 0;
    while i + l < |s| && s[i + l] != 0
      invariant i + l <= |s| && ZeroAt(s, i + l) == ZeroAt(s, i)
    {
      l := l + 1;
    }
  }

  /** One case of unpack's switch. */
  method UnpackValue(m: Machine, item: Item, s: ByteString, i: nat) returns (r: Read)
    ensures r == UnpackItem(m, item, s, i)
  {
    hide DecodeInt, ByteBools;
    match item {
      case Bad => return BadCode;
      case Integer(size, signed, swap) =>
        if i + size > |s| { return Exhausted; }
        var v := UnpackNumber(m, signed, swap, s[i..i + size]);
        return Read([VInt(v)], i + size);
      case ZString =>
        if i >= |s| { return Exhausted; }
        var l := StrLen(s, i);
        return Read([VStr(s[i..i + l])], i + l + 1);
      case Counted(size, swap) =>
        if i + size > |s| { return Exhausted; }
        var l := UnpackNumber(m, false, swap, s[i..i + size]);
        if i + size + l > |s| { return Exhausted; }
        return Read([VStr(s[i + size..i + size + l])], i + size + l);
      case Bools =>
        if i + 1 > |s| { return Exhausted; }
        var bs := UnpackBools(s[i]);
        return Read(bs, i + 1);
    }
  }

  /** unpack's inner loop; stop means that s is exhausted. */
  method UnpackRounds(m: Machine, c: char, count: nat, swap: int, s: ByteString, i: nat, values: seq<Value>, ghost f: string)
    returns (err: Option<string>, stop: bool, swap': int, i': nat, values': seq<Value>)
    ensures After(values, UnpackItems(m, Rounds(m, c, count, f, swap), s, i)) ==
            if err.Some? then Err(err.value)
            else if stop then Ok(Unpacked(values', i'))
            else After(values', UnpackItems(m, Items(m, f, swap'), s, i'))
  {
    hide Items, UnpackItem, DoEndian, Repeat, ItemFor;
    err, stop, swap', i', values' := None, false, swap, i, values;
    var n := count;
    ghost var total := After(values, UnpackItems(m, Rounds(m, c, count, f, swap), s, i));
    while n > 0
      invariant total == After(values', UnpackItems(m, Rounds(m, c, n, f, swap'), s, i'))
      decreases n
    {
      if IsOrder(c) {
        swap', n := DoEndian(m, c), 0;
      } else if IsBlank(c) {
        n := n - 1;
      } else {
        var item := ItemFor(m, c, swap');
        NextRound(m, c, n, f, swap');
        ghost var items := Rounds(m, c, n, f, swap');
        assert items[0] == item && items[1..] == Rounds(m, c, n - 1, f, swap');
        var one := UnpackValue(m, item, s, i');
        if one.BadCode? { return Some("bad code"), false, swap', i', values'; }
        if one.Exhausted? {
          assert values' + [] == values';
          return None, true, swap', i', values';
        }
        AfterTwice(values', one.values, UnpackItems(m, items[1..], s, one.next));
        values', i', n := values' + one.values, one.next, n - 1;
      }
    }
  }

  /** l_unpack; init counts from 1, and so does the position in the result. */
  method LUnpack(m: Machine, s: ByteString, f: string, init: nat) returns (r: Result<Unpacked, string>)
    requires Modelled(f) && init >= 1
    ensures r == FromOne(UnpackItems(m, Items(m, f, 0), s, init - 1))
  {
    hide UnpackItem, DoEndian, Repeat, ItemFor, CountAfter, UnpackItems, After;
    var values: seq<Value> := [];
    var swap: int, at: nat, i: nat := 0, 0, init - 1;
    ghost var total := UnpackItems(m, Items(m, f, 0), s, i);
    assert f[0..] == f;
    NothingRead(total);
    while at < |f|
      invariant at <= |f|
      invariant total == After(values, UnpackItems(m, Items(m, f[at..], swap), s, i))
      decreases |f| - at
    {
      var c := f[at];
      assert f[at..][0] == c && f[at..][1..] == f[at + 1..];
      var n;
      n, at := ReadCount(f, at + 1);
      if c == 'x' && (n == 0 || n % 8 != 0) {
        BadRead(m, s, i, values);
        return Err("bad code");
      }
      if c == 'x' { n := n / 8; }
      var err, stop;
      err, stop, swap, i, values := UnpackRounds(m, c, n, swap, s, i, values, f[at..]);
      if err.Some? { return Err(err.value); }
      if stop { return Ok(Unpacked(values, i + 1)); }
    }
    assert f[at..] == [];
    AllRead(m, s, i, values);
    return Ok(Unpacked(values, i + 1));
  }

  lemma AllRead(m: Machine, s: ByteString, i: nat, values: seq<Value>)
    ensures After(values, UnpackItems(m, [], s, i)) == Ok(Unpacked(values, i))
  {
    assert values + [] == values;
  }

  function FromOne(r: Result<Unpacked, string>): Result<Unpacked, string> {
    match r
    case Ok(u) => Ok(Unpacked(u.values, u.next + 1))
    case Err(e) => Err(e)
  }

  lemma NothingRead(r: Result<Unpacked, string>)
    ensures After([], r) == r
  {
    if r.Ok? {
      assert [] + r.value.values == r.value.values;
    }
  }

  lemma BadRead(m: Machine, s: ByteString, i: nat, values: seq<Value>)
    ensures After(values, UnpackItems(m, [Bad], s, i)) == Err("bad code")
  {
  }

  lemma AfterTwice(a: seq<Value>, b: seq<Value>, r: Result<Unpacked, string>)
    ensures After(a, After(b, r)) == After(a + b, r)
  {
    if r.Ok? {
      Assoc(a, b, r.value.values);
    }
  }

  /** What pack makes of values, unpack makes into the same values, with a position one behind the end, exactly when
      each string can be carried by its code. */
  method PackThenUnpack(m: Machine, f: string, xs: seq<Value>) returns (s: Result<ByteString, string>, u: Result<Unpacked, string>)
    requires Modelled(f)
    ensures s.Ok? ==>
      var n := Arities(Items(m, f, 0));
      n <= |xs| && (u == Ok(Unpacked(xs[..n], |s.value| + 1)) <==> AllCarry(Items(m, f, 0), xs))
  {
    s := LPack(m, f, xs);
    if s.Err? { return s, Err("nothing to unpack"); }
    u := LUnpack(m, s.value, f, 1);
    RoundTripIff(m, Items(m, f, 0), xs, s.value, [], []);
    assert [] + s.value + [] == s.value;
  }
}
