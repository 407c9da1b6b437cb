/** The luatobin format byte by byte, as the comment and the enumeration in c/luatobin.c give it: what the writer puts
    out for each kind of value, and what the reader makes of any bytes. */
module LuatobinBytes {
  import opened Bytes
  import opened LuatobinFormat
  import opened LuatobinReader
  import Endian

  /* ---- Numbers on the wire ---- */

  lemma BigOf2(a: Byte, b: Byte)
    ensures Endian.BigValue([a, b]) == a * 256 + b
  {
    assert [a, b][..1] == [a] && [a][..0] == [];
    assert Endian.BigValue([a]) == a;
  }

  lemma BigOf4(a: Byte, b: Byte, c: Byte, d: Byte)
    ensures Endian.BigValue([a, b, c, d]) == ((a * 256 + b) * 256 + c) * 256 + d
  {
    BigOf2(a, b);
    assert [a, b, c][..2] == [a, b] && [a, b, c, d][..3] == [a, b, c];
    assert Endian.BigValue([a, b, c]) == (a * 256 + b) * 256 + c;
  }

  lemma BigFour(s: ByteString)
    requires |s| == 4
    ensures var a: int, b: int, c: int, d: int := s[0], s[1], s[2], s[3];
      Endian.BigValue(s) == ((a * 256 + b) * 256 + c) * 256 + d
  {
    assert s == [s[0], s[1], s[2], s[3]];
    BigOf4(s[0], s[1], s[2], s[3]);
  }

  /** A 16-bit field is the number in network order. */
  lemma Field16(n: int)
    requires 0 <= n < 65536
    ensures |Be16(n)| == 2 && Endian.BigValue(Be16(n)) == n
  {
    BigOf2(n / 256, n % 256);
  }

  lemma Quarters(u: int)
    requires 0 <= u < 4294967296
    ensures ((u / 16777216 * 256 + u / 65536 % 256) * 256 + u / 256 % 256) * 256 + u % 256 == u
  {
    var u1 := u / 256;
    var u2 := u1 / 256;
    assert u / 65536 == u2 && u / 16777216 == u2 / 256;
  }

  /** A 32-bit field is the integer modulo 2^32. */
  lemma Field32(n: int)
    ensures |Be32(n)| == 4 && Endian.BigValue(Be32(n)) == n % 4294967296
  {
    var u := n % 4294967296;
    Quarters(u);
    BigOf4(u / 16777216, u / 65536 % 256, u / 256 % 256, u % 256);
  }

  /** Two bytes after the tag, as a number. */
  function Size(s: ByteString): nat
    requires |s| >= 3
  {
    Endian.BigValue(s[1..3])
  }

  lemma SizeIs(s: ByteString)
    requires |s| >= 3
    ensures Size(s) == FromBe16(s[1], s[2]) < 65536
  {
    assert s[1..3] == [s[1], s[2]];
    BigOf2(s[1], s[2]);
  }

  /* ---- The writer ---- */

  /** A back reference: tag 0x14 and a 16-bit number. */
  predicate IsRef(s: ByteString, n: nat) {
    |s| == 3 && s[0] == 0x14 && Size(s) == n
  }

  /** Tag, 16-bit length, and that many bytes. */
  predicate IsBlock(s: ByteString, tag: int, text: ByteString) {
    |s| == 3 + |text| && s[0] == tag && Size(s) == |text| && s[3..] == text
  }

  /** Values without identity. */
  lemma PlainOnWire(h: Heap, v: Value, w: Numbers)
    requires ClosedHeap(h) && InHeap(h, v)
    ensures v.Nil? ==> Ser(h, v, w) == Ok(Written([0x00], w))
    ensures v.Bool? ==> Ser(h, v, w) == Ok(Written([0x01, if v.b then 1 else 0], w))
    ensures v.Double? ==> Ser(h, v, w) == Ok(Written([0x03] + v.bits, w))
    ensures v.Int? ==> Ser(h, v, w).Ok? && var o := Ser(h, v, w).value;
      |o.bytes| == 5 && o.bytes[0] == 0x07 && Endian.BigValue(o.bytes[1..]) == v.n % 4294967296 && o.numbers == w
    ensures v.Other? ==> Ser(h, v, w) == Err(UnsupportedType)
  {
    if v.Int? {
      Field32(v.n);
      assert ([0x07] + Be32(v.n))[1..] == Be32(v.n);
    }
  }

  lemma RefOnWire(h: Heap, v: Value, w: Numbers)
    requires ClosedHeap(h) && InHeap(h, v) && Cached(v) && v in w && w[v] < 65536
    ensures Ser(h, v, w).Ok? && IsRef(Ser(h, v, w).value.bytes, w[v]) && Ser(h, v, w).value.numbers == w
  {
    Field16(w[v]);
    var s := [0x14] + Be16(w[v]);
    assert s[1..3] == Be16(w[v]);
  }

  lemma BlockOnWire(tag: Byte, text: ByteString)
    requires |text| < 65536
    ensures IsBlock([tag] + Be16(|text|) + text, tag, text)
  {
    Field16(|text|);
    var s := [tag] + Be16(|text|) + text;
    assert s[1..3] == Be16(|text|);
  }

  /** A string or function met for the first time: it gets the next number; 65535 bytes are too many. */
  lemma NewOnWire(h: Heap, v: Value, w: Numbers)
    requires ClosedHeap(h) && InHeap(h, v) && v !in w && |w| < 65535
    ensures v.Str? && |v.s| < 65535 ==> Ser(h, v, w).Ok? && var o := Ser(h, v, w).value;
      IsBlock(o.bytes, 0x04, v.s) && o.numbers == w[v := |w| + 1]
    ensures v.Str? && |v.s| >= 65535 ==> Ser(h, v, w) == Err(StringTooLong)
    ensures v.Fun? ==> match h[v.id].dump
      case None => Ser(h, v, w) == Err(CannotDump)
      case Some(dump) =>
        if |dump| >= 65535 then Ser(h, v, w) == Err(FunctionTooLong)
        else Ser(h, v, w).Ok? && var o := Ser(h, v, w).value; IsBlock(o.bytes, 0x06, dump) && o.numbers == w[v := |w| + 1]
  {
    if v.Str? && |v.s| < 65535 {
      BlockOnWire(0x04, v.s);
    } else if v.Fun? && h[v.id].dump.Some? && |h[v.id].dump.value| < 65535 {
      BlockOnWire(0x06, h[v.id].dump.value);
    }
  }

  /** The bytes of a list of entries: the first key, its value, the others, each with the numbers given before it. */
  lemma EntriesOnWire(h: Heap, es: Entries, w: Numbers)
    requires ClosedHeap(h) && EntriesInHeap(h, es)
    ensures es == [] ==> SerEntries(h, es, w) == Ok(Written([], w))
    ensures es != [] && SerEntries(h, es, w).Ok? ==>
      Ser(h, es[0].0, w).Ok? && var k := Ser(h, es[0].0, w).value;
      Ser(h, es[0].1, k.numbers).Ok? && var x := Ser(h, es[0].1, k.numbers).value;
      SerEntries(h, es[1..], x.numbers).Ok? && var rest := SerEntries(h, es[1..], x.numbers).value;
      SerEntries(h, es, w).value == Written(k.bytes + x.bytes + rest.bytes, rest.numbers)
  {
    if es != [] && SerEntries(h, es, w).Ok? {
      var p := SerPair(h, es[0].0, es[0].1, w);
      assert p.Ok? && Ser(h, es[0].0, w).Ok?;
    }
  }

  /** A table met for the first time: it gets the next number before its entries get theirs. Tag 0x05, the number of
      entries, and the entries; 65535 entries are too many, if they can be written at all. */
  lemma TableOnWire(h: Heap, v: Value, w: Numbers)
    requires ClosedHeap(h) && InHeap(h, v) && v.Tab? && v !in w && |w| < 65535
    ensures var es := h[v.id].entries;
      match SerEntries(h, es, w[v := |w| + 1])
      case Err(e) => Ser(h, v, w) == Err(e)
      case Ok(body) =>
        if |es| >= 65535 then Ser(h, v, w) == Err(TableTooLong)
        else
          Ser(h, v, w).Ok? && var o := Ser(h, v, w).value;
          && |o.bytes| == 3 + |body.bytes| && o.bytes[0] == 0x05 && Size(o.bytes) == |es| && o.bytes[3..] == body.bytes
          && o.numbers == body.numbers
  {
    var es := h[v.id].entries;
    if SerEntries(h, es, w[v := |w| + 1]).Ok? && |es| < 65535 {
      var body := SerEntries(h, es, w[v := |w| + 1]).value.bytes;
      Field16(|es|);
      var s := [0x05] + Be16(|es|) + body;
      assert s[1..3] == Be16(|es|) && s[3..] == body;
    }
  }

  /** "a" is 04 00 01 61. */
  lemma Letter(h: Heap)
    requires ClosedHeap(h)
    ensures Ser(h, Str([0x61]), map[]) == Ok(Written([0x04, 0x00, 0x01, 0x61], map[Str([0x61]) := 1]))
    ensures De([0x04, 0x00, 0x01, 0x61], NOTHING_BUILT) == Ok(Reading(Str([0x61]), [], Built([], map[1 := Str([0x61])], 1)))
  {
    var s: ByteString := [0x04, 0x00, 0x01, 0x61];
    assert s[1..] == [0x00, 0x01, 0x61] && s[1..][2..] == [0x61] && [0x61][..1] == [0x61] && [0x61][1..] == [];
    assert [0x04] + Be16(1) + [0x61] == s;
  }

  /* ---- The reader ---- */

  /** The integer whose 32-bit two's complement image is the number u. */
  predicate SignedOf(n: int, u: nat) {
    -2147483648 <= n < 2147483648 && n % 4294967296 == u
  }

  /** What reading any bytes gives that do not start with a table. */
  lemma ReadFromWire(s: ByteString, r: Built)
    ensures s == [] ==> De(s, r) == Err(EndOfInput)
    ensures s != [] && s[0] == 0x00 ==> De(s, r) == Ok(Reading(Nil, s[1..], r))
    ensures s != [] && s[0] == 0x01 ==>
      De(s, r) == if |s| < 2 then Err(EndOfInput) else Ok(Reading(Bool(s[1] != 0), s[2..], r))
    ensures s != [] && s[0] == 0x03 ==>
      De(s, r) == if |s| < 9 then Err(EndOfInput) else Ok(Reading(Double(s[1..9]), s[9..], r))
    ensures s != [] && s[0] == 0x07 ==>
      if |s| < 5 then De(s, r) == Err(EndOfInput)
      else De(s, r).Ok? && var o := De(s, r).value;
        o.value.Int? && SignedOf(o.value.n, Endian.BigValue(s[1..5])) && o.rest == s[5..] && o.built == r
    ensures s != [] && s[0] !in {0x00, 0x01, 0x03, 0x04, 0x05, 0x06, 0x07, 0x14} ==> De(s, r) == Err(UnknownTag)
  {
    hide FromBe32;
    if s != [] {
      var t := s[1..];
      if s[0] == 0x01 && |s| >= 2 {
        assert t[1..] == s[2..];
      } else if s[0] == 0x03 && |s| >= 9 {
        assert t[..8] == s[1..9] && t[8..] == s[9..];
      } else if s[0] == 0x07 && |s| >= 5 {
        assert t[..4] == s[1..5] && t[4..] == s[5..];
        FourBytes(s[1..5]);
      }
    }
  }

  lemma FourBytes(s: ByteString)
    requires |s| == 4
    ensures SignedOf(FromBe32(s), Endian.BigValue(s))
  {
    BigFour(s);
    var a: int, b: int, c: int, d: int := s[0], s[1], s[2], s[3];
    var u := ((a * 256 + b) * 256 + c) * 256 + d;
    assert 0 <= u < 4294967296;
    assert u == a * 16777216 + b * 65536 + c * 256 + d;
  }

  /** The cache grows by the object, under the next number. */
  predicate Numbers1(r: Built, r': Built, v: Value) {
    r'.key == (if r.key % 65536 == 65535 then 0 else r.key % 65536 + 1) && r'.cache == r.cache[r'.key := v]
  }

  /** Where a 16-bit size follows the tag: it, and the bytes it counts, must be there. */
  lemma ShortOnWire(s: ByteString, r: Built)
    ensures s != [] && s[0] in {0x04, 0x05, 0x06, 0x14} && |s| < 3 ==> De(s, r) == Err(EndOfInput)
    ensures |s| >= 3 && s[0] in {0x04, 0x06} && |s| < 3 + Size(s) ==> De(s, r) == Err(EndOfInput)
  {
    hide AddToCache, FromCache, DeEntries;
    if |s| >= 3 {
      SizeIs(s);
      AfterSize(s);
    }
  }

  lemma AfterSize(s: ByteString)
    requires |s| >= 3
    ensures s[1..][0] == s[1] && s[1..][1] == s[2] && s[1..][2..] == s[3..]
    ensures |s| >= 3 + Size(s) ==> s[3..][..Size(s)] == s[3..3 + Size(s)] && s[3..][Size(s)..] == s[3 + Size(s)..]
  {
  }

  /** A reference: the object with that number, or nil. */
  lemma RefFromWire(s: ByteString, r: Built)
    requires |s| >= 3 && s[0] == 0x14
    ensures De(s, r) == Ok(Reading(if Size(s) in r.cache then r.cache[Size(s)] else Nil, s[3..], r))
  {
    hide DeEntries, AddToCache, FromBe32, FromBe16;
    SizeIs(s);
    AfterSize(s);
  }

  lemma CacheGrows(r: Built, v: Value)
    ensures Numbers1(r, AddToCache(r, v), v) && AddToCache(r, v).heap == r.heap
  {
  }

  lemma StringFromWire(s: ByteString, r: Built)
    requires |s| >= 3 && s[0] == 0x04 && |s| >= 3 + Size(s)
    ensures De(s, r).Ok? && var n, o := 3 + Size(s), De(s, r).value;
      o.value == Str(s[3..n]) && o.rest == s[n..] && Numbers1(r, o.built, o.value) && o.built.heap == r.heap
  {
    hide DeEntries, FromCache, FromBe32, FromBe16, AddToCache, Numbers1;
    SizeIs(s);
    AfterSize(s);
    var v := Str(s[3..3 + Size(s)]);
    CacheGrows(r, v);
    assert De(s, r) == Ok(Reading(v, s[3 + Size(s)..], AddToCache(r, v)));
  }

  lemma FunctionFromWire(s: ByteString, r: Built)
    requires |s| >= 3 && s[0] == 0x06 && |s| >= 3 + Size(s)
    ensures De(s, r).Ok? && var n, o := 3 + Size(s), De(s, r).value;
      o.value == Fun(|r.heap|) && o.rest == s[n..] && Numbers1(r, o.built, o.value) &&
      o.built.heap == r.heap + [Function(Some(s[3..n]))]
  {
    hide DeEntries, FromCache, FromBe32, FromBe16, AddToCache, Numbers1;
    SizeIs(s);
    AfterSize(s);
    var r', f := r.(heap := r.heap + [Function(Some(s[3..3 + Size(s)]))]), Fun(|r.heap|);
    CacheGrows(r', f);
    SameNumbers(r, r', AddToCache(r', f), f);
    assert De(s, r) == Ok(Reading(f, s[3 + Size(s)..], AddToCache(r', f)));
  }

  lemma SameNumbers(r: Built, r': Built, r'': Built, v: Value)
    requires Numbers1(r', r'', v) && r'.cache == r.cache && r'.key == r.key
    ensures Numbers1(r, r'', v)
  {
  }

  /** A table: a new one, numbered before its entries are read, as many as the size says. */
  lemma TableFromWire(s: ByteString, r: Built)
    requires |s| >= 3 && s[0] == 0x05
    ensures var id := |r.heap|;
      var r' := Built(r.heap + [Table([])], r.cache[(r.key + 1) % 65536 := Tab(id)], (r.key + 1) % 65536);
      De(s, r) == match DeEntries(s[3..], Size(s), id, r')
                  case Err(e) => Err(e)
                  case Ok(x) => Ok(Reading(Tab(id), x.rest, x.built))
  {
    hide DeEntries, FromCache, FromBe32, FromBe16;
    SizeIs(s);
    AfterSize(s);
    assert AddToCache(r.(heap := r.heap + [Table([])]), Tab(|r.heap|)) ==
           Built(r.heap + [Table([])], r.cache[(r.key + 1) % 65536 := Tab(|r.heap|)], (r.key + 1) % 65536);
  }

  /* ---- Tables that are read ---- */

  /** What a table holds at k: nil where there is no entry. */
  function Lookup(es: Entries, k: Value): Value {
    if es == [] then Nil else if es[0].0 == k then es[0].1 else Lookup(es[1..], k)
  }

  /** No two entries with the same key, and none without a value. */
  predicate Proper(es: Entries) {
    && (forall i, j :: 0 <= i < j < |es| ==> es[i].0 != es[j].0)
    && (forall i :: 0 <= i < |es| ==> es[i].1 != Nil)
  }

  /** Storing a pair sets that key, leaves the others, and keeps the table proper: the last pair with a key counts,
      and a nil removes it. */
  lemma Stored(es: Entries, k: Value, x: Value, j: Value)
    requires Proper(es)
    ensures Proper(RawSet(es, k, x)) && Lookup(RawSet(es, k, x), j) == if j == k then x else Lookup(es, j)
  {
    hide Proper, Lookup;
    ProperStays(es, k, x);
    var i := IndexOf(es, k);
    if i == |es| {
      NoEntry(es, k);
      LookupAppend(es, [(k, x)], j);
      Single(k, x, j);
      if !Has(es, j) { Absent(es, j); }
    } else {
      Around(es, i, j);
      KeyOnce(es, i);
      if x.Nil? {
        LookupAppend(es[..i], es[i + 1..], j);
        if !Has(es[i + 1..], j) { Absent(es[i + 1..], j); }
      } else {
        Around(es[i := (k, x)], i, j);
        assert es[i := (k, x)][..i] == es[..i] && es[i := (k, x)][i + 1..] == es[i + 1..];
      }
    }
  }

  lemma Single(k: Value, x: Value, j: Value)
    ensures Has([(k, x)], j) <==> j == k
    ensures Lookup([(k, x)], j) == if j == k then x else Nil
    ensures Lookup([], j) == Nil && !Has([], j)
  {
    assert [(k, x)][1..] == [];
  }

  /** The entries before i, entry i, and those behind it. */
  lemma Around(es: Entries, i: nat, j: Value)
    requires i < |es|
    ensures Lookup(es, j) ==
            if Has(es[..i], j) then Lookup(es[..i], j) else if es[i].0 == j then es[i].1 else Lookup(es[i + 1..], j)
  {
    assert es == es[..i] + es[i..] && es[i..][0] == es[i] && es[i..][1..] == es[i + 1..];
    LookupAppend(es[..i], es[i..], j);
  }

  lemma KeyOnce(es: Entries, i: nat)
    requires Proper(es) && i < |es|
    ensures !Has(es[..i], es[i].0) && !Has(es[i + 1..], es[i].0)
    ensures Lookup(es[..i], es[i].0) == Nil && Lookup(es[i + 1..], es[i].0) == Nil
  {
    var before, after := es[..i], es[i + 1..];
    assert forall n :: 0 <= n < |after| ==> after[n].0 == es[i + 1 + n].0;
    NoEntry(before, es[i].0);
    NoEntry(after, es[i].0);
  }

  lemma ProperStays(es: Entries, k: Value, x: Value)
    requires Proper(es)
    ensures Proper(RawSet(es, k, x))
  {
  }

  predicate Has(es: Entries, k: Value) {
    es != [] && (es[0].0 == k || Has(es[1..], k))
  }

  lemma {:induction false} NoEntry(es: Entries, k: Value)
    requires forall i :: 0 <= i < |es| ==> es[i].0 != k
    ensures !Has(es, k) && Lookup(es, k) == Nil
  {
    if es != [] {
      NoEntry(es[1..], k);
    }
  }

  lemma {:induction false} Absent(es: Entries, k: Value)
    requires !Has(es, k)
    ensures Lookup(es, k) == Nil
  {
    if es != [] {
      Absent(es[1..], k);
    }
  }

  lemma {:induction false} LookupAppend(a: Entries, b: Entries, k: Value)
    ensures Lookup(a + b, k) == if Has(a, k) then Lookup(a, k) else Lookup(b, k)
  {
    if a == [] {
      assert a + b == b;
    } else {
      assert (a + b)[1..] == a[1..] + b;
      LookupAppend(a[1..], b, k);
    }
  }

  /** One pair: the key, then the value; nil and not-a-number are refused as keys, after the value has been read. */
  lemma PairFromWire(s: ByteString, id: nat, r: Built)
    requires De(s, r).Ok? && De(De(s, r).value.rest, De(s, r).value.built).Ok?
    ensures var k := De(s, r).value;
      var x := De(k.rest, k.built).value;
      if k.value == Nil || (k.value.Double? && IsNaN(k.value.bits)) then DePair(s, id, r) == Err(InvalidKey)
      else DePair(s, id, r) ==
           Ok(EntriesRead(x.rest, x.built.(heap := Store(x.built.heap, id, k.value, x.value))))
  {
  }

  /** Eight bytes are not a number when, the sign aside, they exceed those of infinity. */
  lemma NotANumber(bits: ByteString)
    requires |bits| == 8
    ensures IsNaN(bits) <==> Endian.BigValue([bits[0] % 128] + bits[1..]) > 0x7FF0_0000_0000_0000
  {
    var s := [bits[0] % 128] + bits[1..];
    var head, tail := s[..2], s[2..];
    assert s == head + tail && head == [s[0], s[1]];
    Endian.BigValueAppend(head, tail);
    BigOf2(s[0], s[1]);
    BigBelow(tail);
    SixUp(Endian.BigValue(head));
    SixUp(1);
    var low := Endian.BigValue(tail);
    assert low == 0 <==> forall i :: 2 <= i < 8 ==> bits[i] == 0 by {
      BigZero(tail);
      assert forall i :: 2 <= i < 8 ==> tail[i - 2] == bits[i];
      assert forall i :: 0 <= i < 6 ==> tail[i] == bits[i + 2];
    }
  }

  lemma SixUp(n: nat)
    ensures Endian.Shifted(n, 6) == n * 0x1_0000_0000_0000
  {
    assert Endian.Shifted(n, 2) == 256 * Endian.Shifted(n, 1) && Endian.Shifted(n, 1) == 256 * Endian.Shifted(n, 0);
    assert Endian.Shifted(n, 4) == 256 * Endian.Shifted(n, 3) && Endian.Shifted(n, 3) == 256 * Endian.Shifted(n, 2);
    assert Endian.Shifted(n, 6) == 256 * Endian.Shifted(n, 5) && Endian.Shifted(n, 5) == 256 * Endian.Shifted(n, 4);
  }

  lemma {:induction false} BigBelow(s: ByteString)
    ensures Endian.BigValue(s) < Endian.Shifted(1, |s|)
  {
    if s != [] {
      BigBelow(s[..|s| - 1]);
    }
  }

  lemma {:induction false} BigZero(s: ByteString)
    ensures Endian.BigValue(s) == 0 <==> forall i :: 0 <= i < |s| ==> s[i] == 0
  {
    if s != [] {
      BigZero(s[..|s| - 1]);
      assert forall i :: 0 <= i < |s| - 1 ==> s[..|s| - 1][i] == s[i];
    }
  }

  /* ---- Offsets ---- */

  lemma FromHere(s: ByteString, g: nat)
    requires g < |s|
    ensures OneFrom(s, g) == match De(s[g..], NOTHING_BUILT)
                             case Err(e) => Err(e)
                             case Ok(x) => Ok(One(|s| - |x.rest| + 1, x.value, x.built.heap))
  {
    hide De;
  }

  /** From an offset, counted from 0 here, a string reads as what is behind it, and the next index, counted from 1, is
      as much larger. Where nothing is left, nothing is read. */
  lemma FromOffset(before: ByteString, s: ByteString)
    ensures OneFrom(before + s, |before|) ==
            if s == [] then Ok(Nothing(|before| + 1))
            else match De(s, NOTHING_BUILT)
                 case Err(e) => Err(e)
                 case Ok(x) => Ok(One(|before| + (|s| - |x.rest|) + 1, x.value, x.built.heap))
  {
    hide De;
    var all := before + s;
    assert |all| == |before| + |s|;
    if s != [] {
      assert all[|before|..] == s;
      FromHere(all, |before|);
    }
  }
}
