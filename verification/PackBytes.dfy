/** The codes of c/lpack.c byte by byte: what each letter of a format writes, on every host. */
module PackBytes {
  import opened Bytes
  import Endian
  import opened PackFormat
  import opened Pack

  /* ---- Numbers ---- */

  /** Byte k of a number, counted from the lowest. */
  function Octet(v: int, k: nat): Byte {
    match k
    case 0 => v % 256
    case 1 => v / 256 % 256
    case 2 => v / 65536 % 256
    case _ => v / 16777216 % 256
  }

  lemma Limits()
    ensures Limit(1) == 256 && Limit(2) == 65536 && Limit(4) == 4294967296
  {
    assert Limit(3) == 256 * Limit(2);
  }

  lemma Low16(v: int)
    ensures var u := v % 65536; u % 256 == Octet(v, 0) && u / 256 % 256 == Octet(v, 1)
  {
    var q := v / 65536;
    assert v == 65536 * q + v % 65536;
    Shift256(v % 65536, 256 * q);
  }

  /** Multiples of 256 do not change the lowest byte, and move the rest. */
  lemma Shift256(u: int, q: int)
    ensures (u + 256 * q) % 256 == u % 256 && (u + 256 * q) / 256 == u / 256 + q
  {
  }

  lemma Low32(v: int)
    ensures var u := v % 4294967296;
      && u % 256 == Octet(v, 0) && u / 256 % 256 == Octet(v, 1)
      && u / 256 / 256 % 256 == Octet(v, 2) && u / 256 / 256 / 256 % 256 == Octet(v, 3)
  {
    var u, q := v % 4294967296, v / 4294967296;
    assert v == u + 256 * (16777216 * q);
    Shift256(u, 16777216 * q);
    Shift256(u / 256, 65536 * q);
    Shift256(u / 256 / 256, 256 * q);
    assert v / 256 / 256 == v / 65536 && v / 256 / 256 / 256 == v / 16777216;
    Shift256(u / 256 / 256 / 256, q);
  }

  lemma Image2(m: Machine, v: int)
    ensures Image(m, v % 65536, 2) == if m.little then [Octet(v, 0), Octet(v, 1)] else [Octet(v, 1), Octet(v, 0)]
  {
    hide Octet;
    Low16(v);
    var u := v % 65536;
    var s := LeImage(u, 2);
    assert LeImage(u / 256, 1) == [u / 256 % 256] + LeImage(u / 256 / 256, 0);
    assert s == [u % 256] + LeImage(u / 256, 1);
    assert Reversed(s) == [s[1], s[0]];
  }

  lemma Image4(m: Machine, v: int)
    ensures Image(m, v % 4294967296, 4) ==
            if m.little then [Octet(v, 0), Octet(v, 1), Octet(v, 2), Octet(v, 3)]
            else [Octet(v, 3), Octet(v, 2), Octet(v, 1), Octet(v, 0)]
  {
    hide Octet;
    Low32(v);
    var u := v % 4294967296;
    var s := LeImage(u, 4);
    assert LeImage(u / 256 / 256, 2) == [u / 256 / 256 % 256] + LeImage(u / 256 / 256 / 256, 1);
    assert LeImage(u / 256 / 256 / 256, 1) == [u / 256 / 256 / 256 % 256] + LeImage(u / 256 / 256 / 256 / 256, 0);
    assert LeImage(u / 256, 3) == [u / 256 % 256] + LeImage(u / 256 / 256, 2);
    assert s == [u % 256] + LeImage(u / 256, 3);
    assert Reversed(s) == [s[3], s[2], s[1], s[0]];
  }

  lemma Swapped2(swap: int, a: Byte, b: Byte)
    requires swap in {0, 1, 80, 81}
    ensures Swapped(swap, [a, b]) == if swap % 2 == 0 then [a, b] else [b, a]
  {
    assert Reversed([a, b]) == [b, a];
  }

  lemma Swapped4(swap: int, a: Byte, b: Byte, c: Byte, d: Byte)
    requires swap in {0, 1, 80, 81}
    ensures Swapped(swap, [a, b, c, d]) ==
            match swap
            case 0 => [a, b, c, d]
            case 1 => [d, c, b, a]
            case 80 => [b, a, d, c]
            case _ => [c, d, a, b]
  {
    assert Reversed([a, b, c, d]) == [d, c, b, a];
    assert PairsSwapped([a, b, c, d]) == [b, a, d, c];
    assert Reversed([b, a, d, c]) == [c, d, a, b];
  }

  /** What the order codes mean, on every host. Numbers of 2 bytes: "<" and "{" the lowest first, ">" and "}" the highest
      first, "=" as the host has it. */
  lemma Order2(m: Machine, c: char, v: int)
    requires c in "<>={}"
    ensures EncodeInt(m, 2, DoEndian(m, c), v) ==
            if c == '<' || c == '{' || (c == '=' && m.little) then [Octet(v, 0), Octet(v, 1)] else [Octet(v, 1), Octet(v, 0)]
  {
    hide Swapped, Image, Octet;
    Limits();
    Image2(m, v);
    var swap := DoEndian(m, c);
    Swapped2(swap, Octet(v, 0), Octet(v, 1));
    Swapped2(swap, Octet(v, 1), Octet(v, 0));
  }

  /** Numbers of 4 bytes: with "{" and "}" the two halves go by "<" and ">", and the bytes of each the other way. */
  lemma Order4(m: Machine, c: char, v: int)
    requires c in "<>={}"
    ensures var a, b, d, e := Octet(v, 0), Octet(v, 1), Octet(v, 2), Octet(v, 3);
      EncodeInt(m, 4, DoEndian(m, c), v) ==
      if c == '<' || (c == '=' && m.little) then [a, b, d, e]
      else if c == '>' || c == '=' then [e, d, b, a]
      else if c == '{' then [b, a, e, d]
      else [d, e, a, b]
  {
    hide Swapped, Image, Octet;
    Limits();
    Image4(m, v);
    var a, b, d, e, swap := Octet(v, 0), Octet(v, 1), Octet(v, 2), Octet(v, 3), DoEndian(m, c);
    Swapped4(swap, a, b, d, e);
    Swapped4(swap, e, d, b, a);
  }

  lemma Order1(m: Machine, swap: int, v: int)
    requires swap in {0, 1, 80, 81}
    ensures EncodeInt(m, 1, swap, v) == [v % 256]
  {
    Limits();
    var u := v % 256;
    assert LeImage(u, 1) == [u % 256] + LeImage(u / 256, 0);
    assert Reversed([u]) == [u];
  }

  /** At the start of a format numbers are as the host has them. */
  lemma NativeFirst(m: Machine)
    ensures DoEndian(m, '=') == 0
  {
  }

  /* ---- Letters ---- */

  /** The integers a code takes, and in how many bytes: char and unsigned char, short, int. */
  lemma IntegerCodes(m: Machine, swap: int, n: int)
    requires swap in {0, 1, 80, 81}
    ensures PackItem(m, ItemFor(m, 'b', swap), [VInt(n)]) == if 0 <= n <= 255 then Ok([n]) else Err("number expected")
    ensures PackItem(m, ItemFor(m, 'c', swap), [VInt(n)]) ==
            if (if m.signedChar then -128 <= n <= 127 else 0 <= n <= 255) then Ok([n % 256]) else Err("number expected")
    ensures PackItem(m, ItemFor(m, 'h', swap), [VInt(n)]) ==
            if -32768 <= n <= 32767 then Ok(EncodeInt(m, 2, swap, n)) else Err("number expected")
    ensures PackItem(m, ItemFor(m, 'H', swap), [VInt(n)]) ==
            if 0 <= n <= 65535 then Ok(EncodeInt(m, 2, swap, n)) else Err("number expected")
    ensures PackItem(m, ItemFor(m, 'i', swap), [VInt(n)]) ==
            if -2147483648 <= n <= 2147483647 then Ok(EncodeInt(m, 4, swap, n)) else Err("number expected")
    ensures PackItem(m, ItemFor(m, 'I', swap), [VInt(n)]) ==
            if 0 <= n <= 4294967295 then Ok(EncodeInt(m, 4, swap, n)) else Err("number expected")
  {
    hide EncodeInt, Limit;
    Limits();
    Order1(m, swap, n);
  }

  /** Strings: with a zero byte behind them, or their length in front, in one byte or two. */
  lemma StringCodes(m: Machine, swap: int, s: ByteString)
    requires swap in {0, 1, 80, 81}
    ensures PackItem(m, ItemFor(m, 'z', swap), [VStr(s)]) == Ok(s + [0])
    ensures PackItem(m, ItemFor(m, 'p', swap), [VStr(s)]) == Ok([|s| % 256] + s)
    ensures PackItem(m, ItemFor(m, 'P', swap), [VStr(s)]) == Ok(EncodeInt(m, 2, swap, |s| % 65536) + s)
  {
    hide EncodeInt, Limit;
    Limits();
    Order1(m, swap, |s| % 256);
  }

  function One(b: bool): nat { if b then 1 else 0 }

  lemma FirstBool(bs: seq<Value>, i: nat)
    requires i < |bs|
    ensures BoolsValue(bs[i..]) == Bit(bs[i]) + 2 * BoolsValue(bs[i + 1..])
  {
    assert bs[i..][1..] == bs[i + 1..];
  }

  lemma FourBools(bs: seq<Value>, i: nat)
    requires i + 4 <= |bs|
    ensures BoolsValue(bs[i..]) ==
            Bit(bs[i]) + 2 * Bit(bs[i + 1]) + 4 * Bit(bs[i + 2]) + 8 * Bit(bs[i + 3]) + 16 * BoolsValue(bs[i + 4..])
  {
    hide BoolsValue;
    FirstBool(bs, i);
    FirstBool(bs, i + 1);
    FirstBool(bs, i + 2);
    FirstBool(bs, i + 3);
  }

  /** Eight booleans in a byte, the first the lowest bit. */
  lemma BoolCode(m: Machine, swap: int, bs: seq<Value>)
    requires |bs| == 8 && forall i :: 0 <= i < 8 ==> bs[i].VBool?
    ensures PackItem(m, ItemFor(m, 'x', swap), bs).Ok? && |PackItem(m, ItemFor(m, 'x', swap), bs).value| == 1
    ensures PackItem(m, ItemFor(m, 'x', swap), bs).value[0] ==
            One(bs[0].b) + 2 * One(bs[1].b) + 4 * One(bs[2].b) + 8 * One(bs[3].b) +
            16 * One(bs[4].b) + 32 * One(bs[5].b) + 64 * One(bs[6].b) + 128 * One(bs[7].b)
  {
    hide BoolsValue;
    FourBools(bs, 0);
    FourBools(bs, 4);
    assert bs[0..] == bs && bs[..8] == bs && bs[8..] == [];
    NoBools();
  }

  lemma NoBools()
    ensures BoolsValue([]) == 0
  {
  }

  /** A zero-terminated string that has no terminator is read to the end; at the end there is none to read. */
  lemma Unterminated(m: Machine, swap: int, s: ByteString, i: nat)
    requires i <= |s| && forall j :: i <= j < |s| ==> s[j] != 0
    ensures UnpackItem(m, ItemFor(m, 'z', swap), s, i) ==
            if i < |s| then Read([VStr(s[i..])], |s| + 1) else Exhausted
  {
    assert s[i..|s|] == s[i..];
  }

  /* ---- Formats ---- */

  predicate AllDigits(ds: string) {
    forall i :: 0 <= i < |ds| ==> '0' <= ds[i] <= '9'
  }

  /** A decimal number. */
  function Decimal(ds: string): nat
    requires AllDigits(ds)
  {
    if ds == [] then 0 else 10 * Decimal(ds[..|ds| - 1]) + (ds[|ds| - 1] as int - '0' as int)
  }

  lemma OneDigitMore(before: string, d: char)
    requires AllDigits(before) && '0' <= d <= '9'
    ensures AllDigits(before + [d]) && Decimal(before + [d]) == 10 * Decimal(before) + (d as int - '0' as int)
  {
    assert (before + [d])[..|before|] == before;
  }

  lemma {:induction false} DigitsRead(ds: string, rest: string, before: string)
    requires AllDigits(ds) && AllDigits(before) && (rest == [] || !('0' <= rest[0] <= '9'))
    ensures AllDigits(before + ds) && Digits(ds + rest, Decimal(before)) == (Decimal(before + ds), rest)
    decreases |ds|
  {
    hide Decimal;
    if ds == [] {
      assert before + ds == before && ds + rest == rest;
    } else {
      var b := before + [ds[0]];
      OneDigitMore(before, ds[0]);
      assert (ds + rest)[1..] == ds[1..] + rest && b + ds[1..] == before + ds;
      DigitsRead(ds[1..], rest, b);
    }
  }

  lemma CountRead(ds: string, rest: string)
    requires AllDigits(ds) && (rest == [] || !('0' <= rest[0] <= '9'))
    ensures CountAfter(ds + rest) == (if ds == [] then 1 else Decimal(ds), rest)
  {
    if ds != [] {
      DigitsRead(ds, rest, []);
      assert [] + ds == ds;
    } else {
      assert ds + rest == rest;
    }
  }

  /** What the letter c with the count behind it stands for; without digits the count is 1. */
  lemma LetterInFormat(m: Machine, c: char, ds: string, rest: string, swap: int)
    requires AllDigits(ds) && (rest == [] || !('0' <= rest[0] <= '9'))
    ensures var n, items := if ds == [] then 1 else Decimal(ds), Items(m, [c] + (ds + rest), swap);
      if c == 'x' then
        if n == 0 || n % 8 != 0 then items == [Bad]
        else items == Repeat(Bools, n / 8) + Items(m, rest, swap)
      else if n == 0 || c == ' ' || c == ',' then items == Items(m, rest, swap)
      else if c == '<' || c == '>' || c == '=' || c == '{' || c == '}' then items == Items(m, rest, DoEndian(m, c))
      else items == Repeat(ItemFor(m, c, swap), n) + Items(m, rest, swap)
  {
    hide CountAfter, Decimal, Repeat, DoEndian;
    var f := [c] + (ds + rest);
    assert f[0] == c && f[1..] == ds + rest;
    CountRead(ds, rest);
    Classes(c);
  }

  lemma Classes(c: char)
    ensures IsOrder(c) <==> c == '<' || c == '>' || c == '=' || c == '{' || c == '}'
    ensures IsBlank(c) <==> c == ' ' || c == ','
  {
    var o, b := "<>={}", " ,";
    assert o[0] == '<' && o[1] == '>' && o[2] == '=' && o[3] == '{' && o[4] == '}' && b[0] == ' ' && b[1] == ',';
  }

  lemma {:induction false} RepeatIs(item: Item, n: nat)
    ensures |Repeat(item, n)| == n && forall i :: 0 <= i < n ==> Repeat(item, n)[i] == item
  {
    if n > 0 {
      RepeatIs(item, n - 1);
    }
  }

  /** Any other letter is an error, in both directions. */
  lemma OtherLetters(m: Machine, c: char, swap: int, xs: seq<Value>, s: ByteString, i: nat)
    requires c !in "zpPcbhHiIx"
    ensures PackItem(m, ItemFor(m, c, swap), xs) == Err("bad code")
    ensures UnpackItem(m, ItemFor(m, c, swap), s, i) == BadCode
  {
    var codes := "zpPcbhHiIx";
    assert codes[0] == 'z' && codes[1] == 'p' && codes[2] == 'P' && codes[3] == 'c' && codes[4] == 'b';
    assert codes[5] == 'h' && codes[6] == 'H' && codes[7] == 'i' && codes[8] == 'I' && codes[9] == 'x';
  }

  /** The items of a format are written one after the other, each taking its values from those that are left; what is
      left over at the end is not used. */
  lemma ItemsInTurn(m: Machine, items: seq<Item>, xs: seq<Value>)
    ensures PackItems(m, [], xs) == Ok([])
    ensures items != [] && PackItems(m, items, xs).Ok? ==>
      PackItem(m, items[0], xs).Ok? && var n := if items[0].Bools? then 8 else 1;
      n <= |xs| && PackItems(m, items[1..], xs[n..]).Ok? &&
      PackItems(m, items, xs).value == PackItem(m, items[0], xs).value + PackItems(m, items[1..], xs[n..]).value
  {
  }
}
