/** Base64 byte by byte: section 4 of RFC 4648 and section 6.8 of RFC 2045 with the alphabet written out, and what the
    decoder makes of any input. */
module MimeBase64Exact {
  import opened Bytes
  import opened Streams
  import opened MimeBase64

  /* ---- The alphabet ---- */

  /** Character c stands for n. */
  predicate Stands(c: int, n: int) {
    || (0 <= n <= 25 && c == 'A' as int + n)
    || (26 <= n <= 51 && c == 'a' as int + (n - 26))
    || (52 <= n <= 61 && c == '0' as int + (n - 52))
    || (n == 62 && c == '+' as int)
    || (n == 63 && c == '/' as int)
  }

  lemma Alphabet(n: int)
    requires 0 <= n < 64
    ensures Stands(Base(n), n)
  {
  }

  lemma Letter(c: Byte)
    ensures Unbase(c) < 64 && c != 61 ==> Stands(c, Unbase(c))
    ensures (exists n :: Stands(c, n)) <==> Unbase(c) < 64 && c != 61
    ensures Unbase(c) > 64 <==> c != 61 && !exists n :: Stands(c, n)
    ensures Unbase(61) == 0
  {
    if Unbase(c) < 64 && c != 61 {
      assert Stands(c, Unbase(c));
    } else {
      forall n ensures !Stands(c, n) {
      }
    }
  }

  /* ---- Encoder ---- */

  /** Four characters for the 24 bits of three bytes, six bits each. */
  predicate IsGroup(g: ByteString, a: int, b: int, c: int) {
    && |g| == 4
    && Stands(g[0], a / 4) && Stands(g[1], a % 4 * 16 + b / 16)
    && Stands(g[2], b % 16 * 4 + c / 64) && Stands(g[3], c % 64)
  }

  lemma Sixth(a: int, b: int, c: int)
    requires 0 <= a < 256 && 0 <= b < 256 && 0 <= c < 256
    ensures var value := a * 65536 + b * 256 + c;
      && value / 262144 == a / 4 && value / 4096 % 64 == a % 4 * 16 + b / 16
      && value / 64 % 64 == b % 16 * 4 + c / 64 && value % 64 == c % 64
  {
    var value := a * 65536 + b * 256 + c;
    var v1 := a * 1024 + b * 4 + c / 64;
    assert value == 64 * v1 + c % 64;
    var v2 := a * 16 + b / 16;
    assert v1 == 64 * v2 + (b % 16 * 4 + c / 64);
    assert v2 == 64 * (a / 4) + (a % 4 * 16 + b / 16);
    assert value / 64 == v1 && v1 / 64 == v2 && value / 4096 == v2 && v2 / 64 == a / 4 && value / 262144 == a / 4;
  }

  lemma GroupIs(a: int, b: int, c: int)
    requires 0 <= a < 256 && 0 <= b < 256 && 0 <= c < 256
    ensures IsGroup(Encode3(a, b, c), a, b, c)
  {
    hide Base, Stands;
    var value := a * 65536 + b * 256 + c;
    Sixth(a, b, c);
    Alphabet(value / 262144);
    Alphabet(value / 4096 % 64);
    Alphabet(value / 64 % 64);
    Alphabet(value % 64);
  }

  /** t is the Base64 form of s: a group for each three bytes, and "=" for what is missing in the last one. */
  predicate IsBase64(s: ByteString, t: ByteString)
    decreases |s|
  {
    if |s| == 0 then t == []
    else if |s| == 1 then |t| == 4 && Stands(t[0], s[0] / 4) && Stands(t[1], s[0] % 4 * 16) && t[2] == t[3] == '=' as int
    else if |s| == 2 then
      && |t| == 4 && Stands(t[0], s[0] / 4) && Stands(t[1], s[0] % 4 * 16 + s[1] / 16)
      && Stands(t[2], s[1] % 16 * 4) && t[3] == '=' as int
    else |t| >= 4 && IsGroup(t[..4], s[0], s[1], s[2]) && IsBase64(s[3..], t[4..])
  }

  lemma {:induction false} EncodedIs(s: ByteString)
    ensures IsBase64(s, Encoded(s))
    decreases |s|
  {
    hide Stands, Encode3;
    if |s| == 1 {
      GroupIs(s[0], 0, 0);
    } else if |s| == 2 {
      GroupIs(s[0], s[1], 0);
    } else if |s| >= 3 {
      GroupIs(s[0], s[1], s[2]);
      EncodedIs(s[3..]);
      var g := Encode3(s[0], s[1], s[2]);
      assert (g + Encoded(s[3..]))[..4] == g && (g + Encoded(s[3..]))[4..] == Encoded(s[3..]);
    }
  }

  /** The encoding filter, for every input and every chunking. */
  lemma EncodedText(chunks: seq<ByteString>)
    ensures IsBase64(Concat(chunks), AtomPump(EncodeStep, Pad, Some([]), chunks))
  {
    EncoderFilter(chunks);
    EncodedIs(Concat(chunks));
  }

  /* ---- Line wrapper ---- */

  /** Text without line breaks is cut into lines of exactly the given length, but for the last. */
  lemma {:induction false} WrapsExactly(length: int, s: ByteString)
    requires length >= 1 && CR !in s && LF !in s
    ensures Wrapped(length, s) ==
            if s == [] then []
            else if |s| <= length then s + [13, 10]
            else s[..length] + [13, 10] + Wrapped(length, s[length..])
  {
    var n := if |s| <= length then |s| else length;
    FillsLine(length, length, s[..n]);
    assert s == s[..n] + s[n..];
    RunAppend(WrapStep(length), length, s[..n], s[n..]);
    if s == [] {
    } else if |s| <= length {
      assert s[n..] == [] && s[..n] == s && s + [] == s;
    } else {
      FullLine(length, s[n..]);
      var flush := Text(WrapFlush(length)(Run(WrapStep(length), 0, s[n..]).state));
      Assoc(s[..n], Run(WrapStep(length), 0, s[n..]).text, flush);
      Assoc([13, 10], Run(WrapStep(length), length, s[n..]).text, flush);
      Assoc(s[..n], [13, 10], Wrapped(length, s[n..]));
    }
  }

  lemma {:induction false} FillsLine(length: int, left: int, s: ByteString)
    requires |s| <= left && CR !in s && LF !in s
    ensures Run(WrapStep(length), left, s) == Step(left - |s|, s)
    decreases s
  {
    if s != [] {
      FillsLine(length, left - 1, s[1..]);
      assert [s[0]] + s[1..] == s;
    }
  }

  /** A line break of the text ends the line, and its CR goes. */
  lemma BreakKept(length: int, s: ByteString, rest: ByteString)
    requires |s| <= length && CR !in s && LF !in s
    ensures Wrapped(length, s + [13, 10] + rest) == s + [13, 10] + Wrapped(length, rest)
    ensures Wrapped(length, s + [10] + rest) == s + [13, 10] + Wrapped(length, rest)
  {
    hide Run;
    var w, left := WrapStep(length), length - |s|;
    FillsLine(length, length, s);
    RunSnoc(w, length, s, CR);
    RunSnoc(w, length, s, LF);
    RunSnoc(w, length, s + [CR], LF);
    assert s + [CR] + [LF] == s + [13, 10] && s + [] == s;
    RunAppend(w, length, s + [13, 10], rest);
    RunAppend(w, length, s + [10], rest);
    Assoc(s + [13, 10], Run(w, length, rest).text, Text(WrapFlush(length)(Run(w, length, rest).state)));
  }

  /** On a full line, a line break comes first. */
  lemma FullLine(length: int, s: ByteString)
    requires length >= 1 && s != [] && s[0] != CR && s[0] != LF
    ensures Run(WrapStep(length), 0, s).state == Run(WrapStep(length), length, s).state
    ensures Run(WrapStep(length), 0, s).text == [13, 10] + Run(WrapStep(length), length, s).text
  {
    var rest := Run(WrapStep(length), length - 1, s[1..]);
    assert Run(WrapStep(length), 0, s) == Step(rest.state, CRLF + [s[0]] + rest.text);
    assert Run(WrapStep(length), length, s) == Step(rest.state, [s[0]] + rest.text);
    assert CRLF + [s[0]] + rest.text == CRLF + ([s[0]] + rest.text);
  }

  /* ---- Decoder ---- */

  /** Characters of the alphabet, and "=". */
  ghost predicate Counts(c: int) {
    c == '=' as int || exists n :: Stands(c, n)
  }

  ghost function Counting(s: ByteString): ByteString {
    if s == [] then [] else (if Counts(s[0]) then [s[0]] else []) + Counting(s[1..])
  }

  /** What a character stands for, 0 for "=". */
  ghost predicate Reads(c: int, n: int) {
    if c == '=' as int then n == 0 else Stands(c, n)
  }

  /** Four characters are three bytes, or as many as are not made up by "=". */
  ghost predicate IsDecoded4(g: ByteString, t: ByteString)
    requires |g| == 4
  {
    exists a, b, c, d :: Reads(g[0], a) && Reads(g[1], b) && Reads(g[2], c) && Reads(g[3], d) &&
      t == [a * 4 + b / 16, b % 16 * 16 + c / 4, c % 4 * 64 + d]
           [..if g[2] == '=' as int then 1 else if g[3] == '=' as int then 2 else 3]
  }

  /** Groups of four; up to three characters at the end are dropped. */
  ghost predicate DecodesTo(s: ByteString, t: ByteString)
    decreases |s|
  {
    if |s| < 4 then t == [] else exists a, b :: t == a + b && IsDecoded4(s[..4], a) && DecodesTo(s[4..], b)
  }

  lemma Octets(a: int, b: int, c: int, d: int)
    requires 0 <= a < 64 && 0 <= b < 64 && 0 <= c < 64 && 0 <= d < 64
    ensures Decoded(a, b, c, d) == [a * 4 + b / 16, b % 16 * 16 + c / 4, c % 4 * 64 + d]
  {
    var value := a * 262144 + b * 4096 + c * 64 + d;
    var v1 := a * 1024 + b * 16 + c / 4;
    assert value == 256 * v1 + (c % 4 * 64 + d);
    var v2 := a * 4 + b / 16;
    assert v1 == 256 * v2 + (b % 16 * 16 + c / 4);
    assert value / 256 == v1 && v1 / 256 == v2 && value / 65536 == v2;
  }

  lemma Decoded4Is(g: ByteString)
    requires |g| == 4 && forall i :: 0 <= i < 4 ==> Unbase(g[i]) <= 64
    ensures IsDecoded4(g, Decode4(g))
  {
    hide Unbase, Decoded, Stands;
    forall i | 0 <= i < 4 ensures 0 <= Unbase(g[i]) < 64 && Reads(g[i], Unbase(g[i])) {
      Letter(g[i]);
      Sixty4(g[i]);
    }
    Octets(Unbase(g[0]), Unbase(g[1]), Unbase(g[2]), Unbase(g[3]));
  }

  lemma Sixty4(c: Byte)
    ensures Unbase(c) != 64
  {
  }

  /** One character. */
  lemma OneCharacter(atom: ByteString, c: Byte)
    requires |atom| < 4 && forall i :: 0 <= i < |atom| ==> Unbase(atom[i]) <= 64
    ensures var a, u := DecodeStep(atom, c), atom + [c];
      && |a.state| < 4 && (forall i :: 0 <= i < |a.state| ==> Unbase(a.state[i]) <= 64)
      && (if !Counts(c) then a == Step(atom, [])
          else if |u| == 4 then a.state == [] && IsDecoded4(u, a.text)
          else a == Step(u, []))
  {
    hide Unbase, Decode4, IsDecoded4, Stands;
    Letter(c);
    Sixty4(c);
    var u := atom + [c];
    if Unbase(c) <= 64 && |u| == 4 {
      Decoded4Is(u);
    }
  }

  lemma {:induction false} Decodes(atom: ByteString, s: ByteString)
    requires |atom| < 4 && forall i :: 0 <= i < |atom| ==> Unbase(atom[i]) <= 64
    ensures DecodesTo(atom + Counting(s), Run(DecodeStep, atom, s).text)
    decreases s
  {
    hide Unbase, DecodeStep, IsDecoded4, Counts, Counting, Run;
    RunCons(DecodeStep, atom, s);
    if s == [] {
      assert Counting(s) == [] by { NothingCounts(); }
      assert atom + [] == atom;
    } else {
      OneCharacter(atom, s[0]);
      var a, rest, u := DecodeStep(atom, s[0]), Counting(s[1..]), atom + [s[0]];
      Decodes(a.state, s[1..]);
      var t := Run(DecodeStep, a.state, s[1..]).text;
      assert [] + rest == rest && [] + t == t;
      CountingFirst(s);
      if Counts(s[0]) {
        Assoc(atom, [s[0]], rest);
        if |u| == 4 {
          GroupInFront(u, rest, a.text, t);
        }
      }
    }
  }

  lemma NothingCounts()
    ensures Counting([]) == []
  {
  }

  lemma CountingFirst(s: ByteString)
    requires s != []
    ensures Counting(s) == if Counts(s[0]) then [s[0]] + Counting(s[1..]) else Counting(s[1..])
  {
    assert [] + Counting(s[1..]) == Counting(s[1..]);
  }

  lemma GroupInFront(u: ByteString, rest: ByteString, a: ByteString, t: ByteString)
    requires |u| == 4 && IsDecoded4(u, a) && DecodesTo(rest, t)
    ensures DecodesTo(u + rest, a + t)
  {
    hide IsDecoded4;
    assert (u + rest)[..4] == u && (u + rest)[4..] == rest;
  }

  /** The decoding filter, for every input, encoded or not, and every chunking. */
  lemma DecodedText(chunks: seq<ByteString>)
    ensures DecodesTo(Counting(Concat(chunks)), AtomPump(DecodeStep, NoPad, Some([]), chunks))
  {
    var s := Concat(chunks);
    DecoderReplays();
    AtomPumpIsWhole(DecodeStep, NoPad, [], chunks);
    Decodes([], s);
    assert [] + s == s && [] + Counting(s) == Counting(s);
    assert Run(DecodeStep, [], s).text + [] == Run(DecodeStep, [], s).text;
  }
}
