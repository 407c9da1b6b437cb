/** Base64 (c/mime.c): section 6.8 of RFC 2045, encoded and decoded byte by byte. */
module MimeBase64 {
  import opened Bytes
  import opened Streams

  const PADDING: Byte := 61 // '='
  const INVALID: Byte := 255

  /** b64base */
  function Base(n: int): Byte
    requires 0 <= n < 64
  {
    if n < 26 then 65 + n          // A-Z
    else if n < 52 then 71 + n     // a-z
    else if n < 62 then n - 4      // 0-9
    else if n == 62 then 43 else 47
  }

  /** b64unbase */
  function Unbase(c: Byte): Byte {
    if 65 <= c <= 90 then c - 65
    else if 97 <= c <= 122 then c - 71
    else if 48 <= c <= 57 then c + 4
    else if c == 43 then 62
    else if c == 47 then 63
    else if c == PADDING then 0
    else INVALID
  }

  /* ---- One-shot definitions ---- */

  /** 24 bits as four characters. */
  function Letters(value: int): ByteString
    requires 0 <= value < 0x100_0000
  {
    [Base(value / 262144), Base(value / 4096 % 64), Base(value / 64 % 64), Base(value % 64)]
  }

  /** Three bytes as four characters. */
  function Encode3(a: int, b: int, c: int): ByteString
    requires 0 <= a < 256 && 0 <= b < 256 && 0 <= c < 256
  {
    Letters(a * 65536 + b * 256 + c)
  }

  /** The last one or two bytes: the missing ones count as 0, and their characters are padding. */
  function Pad(s: ByteString): ByteString {
    if |s| == 1 then Encode3(s[0], 0, 0)[..2] + [PADDING, PADDING]
    else if |s| == 2 then Encode3(s[0], s[1], 0)[..3] + [PADDING]
    else []
  }

  /** The Base64 form of a whole input. */
  function Encoded(s: ByteString): ByteString {
    if |s| < 3 then Pad(s) else Encode3(s[0], s[1], s[2]) + Encoded(s[3..])
  }

  /* ---- The byte machines ---- */

  function EncodeStep(atom: ByteString, c: Byte): Step<ByteString> {
    var a := atom + [c];
    if |a| == 3 then Step([], Encode3(a[0], a[1], a[2])) else Step(a, [])
  }

  /** Four 6-bit numbers as three bytes. */
  function Decoded(a: int, b: int, c: int, d: int): ByteString {
    var value := a * 262144 + b * 4096 + c * 64 + d;
    [value / 65536 % 256, value / 256 % 256, value % 256]
  }

  /** Four characters as one to three bytes. */
  function Decode4(a: ByteString): ByteString
    requires |a| == 4
  {
    Decoded(Unbase(a[0]), Unbase(a[1]), Unbase(a[2]), Unbase(a[3]))
      [..if a[2] == PADDING then 1 else if a[3] == PADDING then 2 else 3]
  }

  function DecodeStep(atom: ByteString, c: Byte): Step<ByteString> {
    if Unbase(c) > 64 then Step(atom, [])
    else
      var a := atom + [c];
      if |a| == 4 then Step([], Decode4(a)) else Step(a, [])
  }

  function NoPad(s: ByteString): ByteString { [] }

  /** wrp: CRs are dropped, LFs become CRLF, and full lines are broken. left is the room in the current line. */
  function WrapStep(length: int): (int, Byte) -> Step<int> {
    (left: int, c: Byte) =>
      if c == CR then Step(left, [])
      else if c == LF then Step(length, CRLF)
      else if left <= 0 then Step(length - 1, CRLF + [c])
      else Step(left - 1, [c])
  }

  function WrapFlush(length: int): int -> Option<ByteString> {
    (left: int) => if left < length then Some(CRLF) else None
  }

  /** The wrapped form of a whole input. */
  function Wrapped(length: int, s: ByteString): ByteString {
    CountWhole(WrapStep(length), WrapFlush(length), length, s)
  }

  /** Taking 6 bits at a time. */
  lemma Sixes(value: int)
    requires 0 <= value < 0x100_0000
    ensures value / 64 / 64 == value / 4096 && value / 64 / 64 / 64 == value / 262144
    ensures 0 <= value / 262144 < 64
    ensures value == value / 262144 * 262144 + value / 4096 % 64 * 4096 + value / 64 % 64 * 64 + value % 64
  {
    var q := value / 64;
    var r := q / 64;
    assert r == value / 4096 && r / 64 == value / 262144;
    assert value == 64 * q + value % 64 && q == 64 * r + q % 64 && r == 64 * (r / 64) + r % 64;
  }

  /* ---- The C functions, in place ---- */

  method B64Encode(c: Byte, input: array<Byte>, size: nat) returns (newSize: nat, text: ByteString)
    requires input.Length == 3 && size < 3
    modifies input
    ensures newSize < 3
    ensures Step(input[..newSize], text) == EncodeStep(old(input[..size]), c)
  {
    hide Base;
    input[size] := c;
    newSize := size + 1;
    text := [];
    ghost var a := input[..newSize];
    assert a == old(input[..size]) + [c];
    if newSize == 3 {
      var value: int := input[0];
      value := value * 256 + input[1];
      value := value * 256 + input[2];
      Sixes(value);
      assert Encode3(a[0], a[1], a[2]) == Letters(value);
      var c3 := Base(value % 64);
      value := value / 64;
      var c2 := Base(value % 64);
      value := value / 64;
      var c1 := Base(value % 64);
      value := value / 64;
      text := [Base(value), c1, c2, c3];
      newSize := 0;
    }
  }

  method B64Pad(input: array<Byte>, size: nat) returns (text: ByteString)
    requires input.Length == 3 && size < 3
    ensures text == Pad(input[..size])
  {
    hide Base, Letters;
    text := [];
    if size == 1 {
      var value: int := input[0];
      PadLetters(value, 0);
      value := value * 16;
      text := [Base(value / 64), Base(value % 64), PADDING, PADDING];
    } else if size == 2 {
      var value: int := input[0];
      PadLetters(value, input[1]);
      value := value * 256 + input[1];
      value := value * 4;
      var c2 := Base(value % 64);
      value := value / 64;
      text := [Base(value / 64), Base(value % 64), c2, PADDING];
    }
  }

  /** The letters of one or two last bytes. */
  lemma PadLetters(a: int, b: int)
    requires 0 <= a < 256 && 0 <= b < 256
    ensures var value := (a * 256 + b) * 4;
      && 0 <= value / 64 / 64 < 64 && 0 <= a * 16 / 64 < 64
      && Encode3(a, b, 0)[..3] == [Base(value / 64 / 64), Base(value / 64 % 64), Base(value % 64)]
    ensures b == 0 ==> Encode3(a, b, 0)[..2] == [Base(a * 16 / 64), Base(a * 16 % 64)]
  {
    hide Base;
    var value := (a * 256 + b) * 4;
    var whole := a * 65536 + b * 256 + 0;
    assert whole == 64 * value && whole / 64 == value;
    Sixes(whole);
    assert b == 0 ==> value == 64 * (a * 16) && value / 64 == a * 16;
  }

  lemma Shifts(a: int, b: int, c: int, d: int)
    ensures var value := ((a * 64 + b) * 64 + c) * 64 + d;
      Decoded(a, b, c, d) == [value / 256 / 256 % 256, value / 256 % 256, value % 256]
  {
    var value := a * 262144 + b * 4096 + c * 64 + d;
    assert value == ((a * 64 + b) * 64 + c) * 64 + d && value / 65536 == value / 256 / 256;
  }

  method B64Decode(c: Byte, input: array<Byte>, size: nat) returns (newSize: nat, text: ByteString)
    requires input.Length == 4 && size < 4
    modifies input
    ensures newSize < 4
    ensures Step(input[..newSize], text) == DecodeStep(old(input[..size]), c)
  {
    hide Unbase, Decoded;
    if Unbase(c) > 64 { return size, []; }
    input[size] := c;
    newSize := size + 1;
    text := [];
    ghost var a := input[..newSize];
    assert a == old(input[..size]) + [c];
    if newSize == 4 {
      Shifts(Unbase(input[0]), Unbase(input[1]), Unbase(input[2]), Unbase(input[3]));
      var value: int := Unbase(input[0]);
      value := value * 64 + Unbase(input[1]);
      value := value * 64 + Unbase(input[2]);
      value := value * 64 + Unbase(input[3]);
      var d2: Byte := value % 256;
      value := value / 256;
      var d1: Byte := value % 256;
      value := value / 256;
      var decoded: ByteString := [value % 256, d1, d2];
      var valid := if input[2] == PADDING then 1 else if input[3] == PADDING then 2 else 3;
      return 0, decoded[..valid];
    }
  }

  method FeedEncoder(input: array<Byte>, size: nat, s: ByteString) returns (newSize: nat, text: ByteString)
    requires input.Length == 3 && size < 3
    modifies input
    ensures newSize < 3
    ensures Step(input[..newSize], text) == Run(EncodeStep, old(input[..size]), s)
  {
    newSize, text := size, [];
    for i := 0 to |s|
      invariant newSize < 3
      invariant Step(input[..newSize], text) == Run(EncodeStep, old(input[..size]), s[..i])
    {
      RunSnoc(EncodeStep, old(input[..size]), s[..i], s[i]);
      assert s[..i + 1] == s[..i] + [s[i]];
      var t;
      newSize, t := B64Encode(s[i], input, newSize);
      text := text + t;
    }
    assert s[..|s|] == s;
  }

  method FeedDecoder(input: array<Byte>, size: nat, s: ByteString) returns (newSize: nat, text: ByteString)
    requires input.Length == 4 && size < 4
    modifies input
    ensures newSize < 4
    ensures Step(input[..newSize], text) == Run(DecodeStep, old(input[..size]), s)
  {
    newSize, text := size, [];
    for i := 0 to |s|
      invariant newSize < 4
      invariant Step(input[..newSize], text) == Run(DecodeStep, old(input[..size]), s[..i])
    {
      RunSnoc(DecodeStep, old(input[..size]), s[..i], s[i]);
      assert s[..i + 1] == s[..i] + [s[i]];
      var t;
      newSize, t := B64Decode(s[i], input, newSize);
      text := text + t;
    }
    assert s[..|s|] == s;
  }

  method MimeB64(ctx: Option<ByteString>, chunk: Option<ByteString>) returns (a: Option<ByteString>, b: Option<ByteString>)
    ensures Call(a, b) == AtomCall(EncodeStep, Pad, ctx, chunk)
  {
    if ctx == None { return None, None; }
    var atom := new Byte[3];
    assert atom[..0] == [];
    var size, text := FeedEncoder(atom, 0, ctx.value);
    if chunk == None {
      var p := B64Pad(atom, size);
      text := text + p;
      return (if text == [] || text[0] == 0 then None else Some(text)), None;
    }
    var more;
    size, more := FeedEncoder(atom, size, chunk.value);
    return Some(text + more), Some(atom[..size]);
  }

  method MimeUnb64(ctx: Option<ByteString>, chunk: Option<ByteString>) returns (a: Option<ByteString>, b: Option<ByteString>)
    ensures Call(a, b) == AtomCall(DecodeStep, NoPad, ctx, chunk)
  {
    if ctx == None { return None, None; }
    var atom := new Byte[4];
    assert atom[..0] == [];
    var size, text := FeedDecoder(atom, 0, ctx.value);
    if chunk == None {
      assert text + [] == text;
      return (if text == [] || text[0] == 0 then None else Some(text)), None;
    }
    var more;
    size, more := FeedDecoder(atom, size, chunk.value);
    return Some(text + more), Some(atom[..size]);
  }

  method MimeWrp(left: int, chunk: Option<ByteString>, length: int) returns (a: Option<ByteString>, n: int)
    ensures Call(a, n) == CountCall(WrapStep(length), WrapFlush(length), length, left, chunk)
  {
    if chunk == None {
      return (if left < length then Some(CRLF) else None), length;
    }
    var s, text := chunk.value, [];
    n := left;
    for i := 0 to |s|
      invariant Step(n, text) == Run(WrapStep(length), left, s[..i])
    {
      RunSnoc(WrapStep(length), left, s[..i], s[i]);
      assert s[..i + 1] == s[..i] + [s[i]];
      var c := s[i];
      if c == LF {
        text, n := text + CRLF, length;
      } else if c != CR {
        if n <= 0 {
          text, n := text + CRLF, length;
        }
        text, n := text + [c], n - 1;
      }
    }
    assert s[..|s|] == s;
    a := Some(text);
  }

  /* ---- Encoding ---- */

  lemma {:induction false} EncodeAtom(s: ByteString)
    ensures var x := Run(EncodeStep, [], s);
      && |x.state| < 3 && |x.state| <= |s| && x.state == s[|s| - |x.state|..]
      && x.text + Pad(x.state) == Encoded(s)
  {
    hide Run, Pad, Encode3;
    if |s| >= 3 {
      var x := Run(EncodeStep, [], s[3..]);
      EncodeAtom(s[3..]);
      RunShort(s[..3]);
      assert s == s[..3] + s[3..];
      RunAppend(EncodeStep, [], s[..3], s[3..]);
      Assoc(Encode3(s[0], s[1], s[2]), x.text, Pad(x.state));
      assert x.state == s[|s| - |x.state|..];
    } else {
      RunShort(s);
      assert [] + Pad(s) == Pad(s);
    }
  }

  /** Up to three bytes from an empty atom. */
  lemma RunShort(s: ByteString)
    requires |s| <= 3
    ensures Run(EncodeStep, [], s) == if |s| == 3 then Step([], Encode3(s[0], s[1], s[2])) else Step(s, [])
  {
    hide Encode3, Run;
    if s == [] {
      RunCons(EncodeStep, [], s);
    } else {
      var n := |s| - 1;
      RunShort(s[..n]);
      RunSnoc(EncodeStep, [], s[..n], s[n]);
      assert s == s[..n] + [s[n]];
      assert [] + EncodeStep(s[..n], s[n]).text == EncodeStep(s[..n], s[n]).text;
    }
  }

  lemma EncoderReplays()
    ensures Replays(EncodeStep)
  {
    forall s ensures ReplaysAfter(EncodeStep, s) {
      EncodeAtom(s);
      var a := Run(EncodeStep, [], s).state;
      if a != [] {
        RunShort(a);
      }
    }
  }

  /** The encoding filter's output over any chunking is the one-shot Base64 form of the whole input. */
  lemma EncoderFilter(chunks: seq<ByteString>)
    ensures AtomPump(EncodeStep, Pad, Some([]), chunks) == Encoded(Concat(chunks))
  {
    EncoderReplays();
    AtomPumpIsWhole(EncodeStep, Pad, [], chunks);
    EncodeAtom(Concat(chunks));
    assert [] + Concat(chunks) == Concat(chunks);
  }

  /* ---- Decoding ---- */

  lemma BaseUnbase(n: int)
    requires 0 <= n < 64
    ensures Unbase(Base(n)) == n && Base(n) != PADDING && Unbase(PADDING) == 0
  {
  }

  lemma {:induction false} DecodeGroup(a: ByteString)
    requires |a| == 4 && forall i :: 0 <= i < 4 ==> Unbase(a[i]) <= 64
    ensures Run(DecodeStep, [], a) == Step([], Decode4(a))
    ensures forall k :: 0 <= k < 4 ==> Run(DecodeStep, [], a[..k]) == Step(a[..k], [])
  {
    assert a[..0] == [] && a[..1] == [] + [a[0]] && a[..2] == a[..1] + [a[1]];
    assert a[..3] == a[..2] + [a[2]] && a == a[..3] + [a[3]];
    RunSnoc(DecodeStep, [], a[..0], a[0]);
    RunSnoc(DecodeStep, [], a[..1], a[1]);
    RunSnoc(DecodeStep, [], a[..2], a[2]);
    RunSnoc(DecodeStep, [], a[..3], a[3]);
  }

  lemma DecodedLetters(value: int)
    requires 0 <= value < 0x100_0000
    ensures Decoded(value / 262144, value / 4096 % 64, value / 64 % 64, value % 64) ==
            [value / 65536, value / 256 % 256, value % 256]
  {
    Sixes(value);
    Bytes3(value);
    var a, b, c, d := value / 262144, value / 4096 % 64, value / 64 % 64, value % 64;
    assert a * 262144 + b * 4096 + c * 64 + d == value;
  }

  lemma Bytes3(value: int)
    requires 0 <= value < 0x100_0000
    ensures 0 <= value / 65536 < 256 && value / 65536 % 256 == value / 65536
  {
  }

  lemma LettersValid(value: int)
    requires 0 <= value < 0x100_0000
    ensures var l := Letters(value);
      && |l| == 4
      && Unbase(l[0]) == value / 262144 && Unbase(l[1]) == value / 4096 % 64
      && Unbase(l[2]) == value / 64 % 64 && Unbase(l[3]) == value % 64
      && l[2] != PADDING && l[3] != PADDING && Unbase(PADDING) == 0
  {
    BaseUnbase(value / 262144);
    BaseUnbase(value / 4096 % 64);
    BaseUnbase(value / 64 % 64);
    BaseUnbase(value % 64);
  }

  lemma ThreeBytes(a: int, b: int, c: int)
    requires 0 <= a < 256 && 0 <= b < 256 && 0 <= c < 256
    ensures var value := a * 65536 + b * 256 + c;
      && 0 <= value < 0x100_0000
      && value / 65536 == a && value / 256 % 256 == b && value % 256 == c
      && (c == 0 ==> value % 64 == 0) && (b == c == 0 ==> value / 64 % 64 == 0)
  {
    var q := a * 256 + b;
    LastByte(q, c);
    LastByte(a, b);
    if c == 0 {
      LastSix(4 * q);
    }
    if b == c == 0 {
      LastSix(16 * a);
    }
  }

  lemma LastByte(q: int, c: int)
    requires 0 <= c < 256
    ensures (q * 256 + c) / 256 == q && (q * 256 + c) % 256 == c
  {
  }

  lemma LastSix(q: int)
    ensures 64 * q / 64 == q && 64 * q % 64 == 0
  {
  }

  lemma Decode4Encode3(a: Byte, b: Byte, c: Byte)
    ensures |Encode3(a, b, c)| == 4 && Decode4(Encode3(a, b, c)) == [a, b, c]
    ensures forall i :: 0 <= i < 4 ==> Unbase(Encode3(a, b, c)[i]) <= 64
  {
    hide Base, Unbase, Letters, Decoded;
    ThreeBytes(a, b, c);
    var value: int := (a as int) * 65536 + (b as int) * 256 + c;
    LettersValid(value);
    DecodedLetters(value);
  }

  lemma Decode4Pad(s: ByteString)
    requires 1 <= |s| <= 2
    ensures |Pad(s)| == 4 && Decode4(Pad(s)) == s
    ensures forall i :: 0 <= i < 4 ==> Unbase(Pad(s)[i]) <= 64
  {
    hide Base, Unbase, Letters, Decoded;
    var b: int := if |s| == 2 then s[1] else 0;
    ThreeBytes(s[0], b, 0);
    var value: int := (s[0] as int) * 65536 + b * 256 + 0;
    LettersValid(value);
    DecodedLetters(value);
  }

  lemma DecodeBlock(a: Byte, b: Byte, c: Byte)
    ensures Run(DecodeStep, [], Encode3(a, b, c)) == Step([], [a, b, c])
  {
    hide Base, Unbase, Letters, Decode4, DecodeStep, Run;
    Decode4Encode3(a, b, c);
    DecodeGroup(Encode3(a, b, c));
  }

  lemma DecodeLast(s: ByteString)
    requires |s| <= 2
    ensures Run(DecodeStep, [], Pad(s)) == Step([], s)
  {
    hide Base, Unbase, Letters, Decode4, DecodeStep, Encode3;
    if s != [] {
      Decode4Pad(s);
      DecodeGroup(Pad(s));
    }
  }

  lemma {:induction false} DecodeEncoded(s: ByteString)
    ensures Run(DecodeStep, [], Encoded(s)) == Step([], s)
  {
    hide DecodeStep, Encode3, Pad, Run;
    if |s| >= 3 {
      var g := Encode3(s[0], s[1], s[2]);
      DecodeBlock(s[0], s[1], s[2]);
      DecodeEncoded(s[3..]);
      RunAppend(DecodeStep, [], g, Encoded(s[3..]));
      assert [s[0], s[1], s[2]] + s[3..] == s;
    } else {
      DecodeLast(s);
    }
  }

  /* ---- Line breaks in between ---- */

  /** s without its CRs and LFs. */
  function Stripped(s: ByteString): ByteString {
    if s == [] then []
    else (if s[0] == CR || s[0] == LF then [] else [s[0]]) + Stripped(s[1..])
  }

  lemma {:induction false} StrippedAppend(a: ByteString, b: ByteString)
    ensures Stripped(a + b) == Stripped(a) + Stripped(b)
  {
    if a == [] {
      assert a + b == b;
    } else {
      assert (a + b)[1..] == a[1..] + b;
      StrippedAppend(a[1..], b);
    }
  }

  /** The decoder does not see line breaks. */
  lemma {:induction false} DecodeStripped(atom: ByteString, s: ByteString)
    ensures Run(DecodeStep, atom, s) == Run(DecodeStep, atom, Stripped(s))
    decreases s
  {
    if s != [] {
      DecodeStripped(DecodeStep(atom, s[0]).state, s[1..]);
      if s[0] == CR || s[0] == LF {
        assert Stripped(s) == Stripped(s[1..]);
      } else {
        assert Stripped(s)[1..] == Stripped(s[1..]);
      }
    }
  }

  lemma WrapKeepsOne(length: int, left: int, c: Byte)
    ensures Stripped(WrapStep(length)(left, c).text) == Stripped([c])
  {
  }

  lemma {:induction false} WrapKeepsText(length: int, left: int, s: ByteString)
    ensures Stripped(Run(WrapStep(length), left, s).text) == Stripped(s)
    decreases s
  {
    hide WrapStep, Stripped;
    if s != [] {
      var a := WrapStep(length)(left, s[0]);
      WrapKeepsOne(length, left, s[0]);
      WrapKeepsText(length, a.state, s[1..]);
      StrippedAppend(a.text, Run(WrapStep(length), a.state, s[1..]).text);
      StrippedAppend([s[0]], s[1..]);
      assert [s[0]] + s[1..] == s;
    }
  }

  lemma {:induction false} NothingToStrip(s: ByteString)
    requires CR !in s && LF !in s
    ensures Stripped(s) == s
  {
    if s != [] {
      NothingToStrip(s[1..]);
    }
  }

  lemma {:induction false} EncodedHasNoBreaks(s: ByteString)
    ensures CR !in Encoded(s) && LF !in Encoded(s)
  {
    if |s| >= 3 {
      EncodedHasNoBreaks(s[3..]);
    }
  }

  lemma WrappedKeepsText(length: int, s: ByteString)
    ensures Stripped(Wrapped(length, s)) == Stripped(s)
  {
    var x := Run(WrapStep(length), length, s);
    WrapKeepsText(length, length, s);
    StrippedAppend(x.text, Text(WrapFlush(length)(x.state)));
  }

  /** Decoding what was encoded, wrapped at any length or not, gives the input back, however encoder,
      wrapper and decoder are fed. */
  lemma RoundTrip(length: int, s: seq<ByteString>, encoded: seq<ByteString>, wrapped: seq<ByteString>)
    requires Concat(encoded) == AtomPump(EncodeStep, Pad, Some([]), s)
    requires Concat(wrapped) == CountPump(WrapStep(length), WrapFlush(length), length, length, encoded)
    ensures AtomPump(DecodeStep, NoPad, Some([]), wrapped) == Concat(s)
    ensures AtomPump(DecodeStep, NoPad, Some([]), encoded) == Concat(s)
  {
    DecoderFilter(wrapped);
    DecoderFilter(encoded);
    EncoderFilter(s);
    DecodeEncoded(Concat(s));
    CountPumpIsWhole(WrapStep(length), WrapFlush(length), length, length, encoded);
    WrappedKeepsText(length, Concat(encoded));
    EncodedHasNoBreaks(Concat(s));
    NothingToStrip(Encoded(Concat(s)));
    DecodeStripped([], Concat(wrapped));
  }

  /** What the decoder holds back is always fewer than four characters, and replays. */
  lemma {:induction false} DecodeAtom(s: ByteString)
    ensures var a := Run(DecodeStep, [], s).state;
      |a| < 4 && forall i :: 0 <= i < |a| ==> Unbase(a[i]) <= 64
  {
    if s != [] {
      var t := s[..|s| - 1];
      DecodeAtom(t);
      RunSnoc(DecodeStep, [], t, s[|s| - 1]);
      assert s == t + [s[|s| - 1]];
    }
  }

  lemma DecoderReplays()
    ensures Replays(DecodeStep)
  {
    forall s ensures ReplaysAfter(DecodeStep, s) {
      DecodeAtom(s);
      var a := Run(DecodeStep, [], s).state;
      var padded := a + seq(4 - |a|, i => PADDING);
      DecodeGroup(padded);
      assert padded[..|a|] == a;
    }
  }

  /** The decoding filter, over any chunking. */
  lemma DecoderFilter(chunks: seq<ByteString>)
    ensures AtomPump(DecodeStep, NoPad, Some([]), chunks) == Run(DecodeStep, [], Concat(chunks)).text
  {
    DecoderReplays();
    AtomPumpIsWhole(DecodeStep, NoPad, [], chunks);
    var text := Run(DecodeStep, [], Concat(chunks)).text;
    assert [] + Concat(chunks) == Concat(chunks) && text + [] == text;
  }

  /** Called once on a whole text, without a second part, the decoder takes an output that starts with
      a NUL byte for nothing at all: the direct round trip keeps exactly the other inputs. */
  lemma OneShotIff(s: ByteString)
    requires s != []
    ensures AtomCall(EncodeStep, Pad, Some(s), None).out == Some(Encoded(s))
    ensures AtomCall(DecodeStep, NoPad, Some(Encoded(s)), None).out == Some(s) <==> s[0] != 0
  {
    EncodeAtom(s);
    DecodeEncoded(s);
    assert s + [] == s;
    hide Run, Encoded;
    EncodedPlain(s);
  }

  lemma EncodedPlain(s: ByteString)
    requires s != []
    ensures Encoded(s) != [] && Encoded(s)[0] != 0
  {
    if |s| < 3 {
      Decode4Pad(s);
    }
  }

  /* ---- Line lengths ---- */

  function Short(length: int): ByteString -> bool {
    (line: ByteString) => |line| <= length
  }

  lemma {:induction false} WrapLines(length: int, line: ByteString, s: ByteString)
    requires length >= 1 && |line| <= length
    ensures var x := Run(WrapStep(length), length - |line|, s);
      GoodLines(Short(length), line, x.text + Text(WrapFlush(length)(x.state)))
    decreases s
  {
    hide Run, GoodLines;
    var good := Short(length);
    var left := length - |line|;
    RunCons(WrapStep(length), left, s);
    var x := Run(WrapStep(length), left, s);
    var end := Text(WrapFlush(length)(x.state));
    if s == [] {
      assert x.text + end == end;
      NoLines(good);
      if line != [] {
        assert CRLF + [] == CRLF;
        LineEnds(good, line, []);
      }
    } else {
      var a := WrapStep(length)(left, s[0]);
      var rest := Run(WrapStep(length), a.state, s[1..]).text + end;
      Assoc(a.text, Run(WrapStep(length), a.state, s[1..]).text, end);
      if s[0] == CR {
        WrapLines(length, line, s[1..]);
        assert a.text + rest == rest;
      } else if s[0] == LF {
        WrapLines(length, [], s[1..]);
        LineEnds(good, line, rest);
      } else if left <= 0 {
        WrapLines(length, [s[0]], s[1..]);
        assert [] + [s[0]] == [s[0]] && a.text + rest == CRLF + ([s[0]] + rest);
        LineGoesOn(good, [], s[0], rest);
        LineEnds(good, line, [s[0]] + rest);
      } else {
        WrapLines(length, line + [s[0]], s[1..]);
        LineGoesOn(good, line, s[0], rest);
      }
    }
  }

  /** Wrapped text, of whatever input, is CRLF-terminated lines of at most `length` bytes. */
  lemma WrappedLines(length: int, s: ByteString)
    requires length >= 1
    ensures GoodLines(Short(length), [], Wrapped(length, s))
  {
    WrapLines(length, [], s);
  }
}
