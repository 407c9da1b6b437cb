/** Quoted-printable (c/mime.c): section 6.7 of RFC 2045. Encoder, line wrapper and decoder are byte
    machines; what they have in common is that their texts are sequences of tokens. */
module MimeQp {
  import opened Bytes
  import opened Streams

  const EQ: Byte := 61
  const TAB: Byte := 9
  const SPACE: Byte := 32
  const EQCRLF: ByteString := [61, 13, 10]

  datatype Class = PlainClass | QuotedClass | CrClass | IfLastClass

  /** qpclass */
  function ClassOf(c: Byte): Class {
    if 33 <= c <= 60 || 62 <= c <= 126 then PlainClass
    else if c == TAB || c == SPACE then IfLastClass
    else if c == CR then CrClass
    else QuotedClass
  }

  /** qpbase */
  function Hex(n: int): Byte
    requires 0 <= n < 16
  {
    if n < 10 then 48 + n else 55 + n
  }

  /** qpunbase */
  function Unhex(c: Byte): Byte {
    if 48 <= c <= 57 then c - 48
    else if 65 <= c <= 70 then c - 55
    else if 97 <= c <= 102 then c - 87
    else 255
  }

  /* ---- Tokens ---- */

  datatype Token = Plain(c: Byte) | Quoted(c: Byte) | HardBreak | SoftBreak

  type Tokens = seq<Token>

  predicate IsSpace(c: Byte) {
    c == TAB || c == SPACE
  }

  /** A plain token stands for a byte that the format allows as it is. */
  predicate GoodToken(t: Token) {
    t.Plain? ==> IsSpace(t.c) || (33 <= t.c <= 126 && t.c != EQ)
  }

  predicate GoodTokens(ts: Tokens) {
    forall i :: 0 <= i < |ts| ==> GoodToken(ts[i])
  }

  /** The bytes of a token. */
  function RenderOne(t: Token): ByteString {
    match t
    case Plain(c) => [c]
    case Quoted(c) => [EQ, Hex(c / 16), Hex(c % 16)]
    case HardBreak => CRLF
    case SoftBreak => EQCRLF
  }

  function Render(ts: Tokens): ByteString {
    if ts == [] then [] else RenderOne(ts[0]) + Render(ts[1..])
  }

  /** The bytes a token stands for. */
  function MeaningOne(t: Token): ByteString {
    match t
    case Plain(c) => [c]
    case Quoted(c) => [c]
    case HardBreak => CRLF
    case SoftBreak => []
  }

  function Meaning(ts: Tokens): ByteString {
    if ts == [] then [] else MeaningOne(ts[0]) + Meaning(ts[1..])
  }

  lemma {:induction false} RenderAppend(a: Tokens, b: Tokens)
    ensures Render(a + b) == Render(a) + Render(b)
    ensures Meaning(a + b) == Meaning(a) + Meaning(b)
  {
    hide RenderOne, MeaningOne;
    if a == [] {
      assert a + b == b;
    } else {
      assert (a + b)[0] == a[0] && (a + b)[1..] == a[1..] + b;
      RenderAppend(a[1..], b);
      Assoc(RenderOne(a[0]), Render(a[1..]), Render(b));
      Assoc(MeaningOne(a[0]), Meaning(a[1..]), Meaning(b));
    }
  }

  lemma RenderSingle(t: Token)
    ensures Render([t]) == RenderOne(t) && Meaning([t]) == MeaningOne(t)
  {
    assert [t][1..] == [];
    assert RenderOne(t) + [] == RenderOne(t) && MeaningOne(t) + [] == MeaningOne(t);
  }

  /* ---- Encoder ---- */

  /** The marker for a CRLF of the input: itself in text mode, "=0D=0A" in binary mode. */
  datatype Mode = TextMode | BinaryMode

  function Marker(mode: Mode): ByteString {
    if mode.TextMode? then CRLF else [61, 48, 68, 61, 48, 65]
  }

  function MarkerTokens(mode: Mode): Tokens {
    if mode.TextMode? then [HardBreak] else [Quoted(CR), Quoted(LF)]
  }

  /** The bytes of atom that are not decided yet, and the tokens for the others. */
  datatype Decided = Decided(pending: ByteString, tokens: Tokens)

  function After(ts: Tokens, d: Decided): Decided {
    Decided(d.pending, ts + d.tokens)
  }

  /** The loop of qpencode. */
  function Decide(mode: Mode, atom: ByteString): Decided {
    if atom == [] then Decided([], []) else
    match ClassOf(atom[0])
    case CrClass =>
      if |atom| < 2 then Decided(atom, [])
      else if atom[1] == LF then Decided([], MarkerTokens(mode))
      else After([Quoted(CR)], Decide(mode, atom[1..]))
    case IfLastClass =>
      if |atom| < 3 then Decided(atom, [])
      else if atom[1] == CR && atom[2] == LF then Decided([], [Quoted(atom[0])] + MarkerTokens(mode))
      else After([Plain(atom[0])], Decide(mode, atom[1..]))
    case QuotedClass => After([Quoted(atom[0])], Decide(mode, atom[1..]))
    case PlainClass => After([Plain(atom[0])], Decide(mode, atom[1..]))
  }

  function EncodeStep(mode: Mode): AtomMachine {
    (atom: ByteString, c: Byte) =>
      var d := Decide(mode, atom + [c]);
      Step(d.pending, Render(d.tokens))
  }

  function PadTokens(s: ByteString): Tokens {
    if s == [] then []
    else [if ClassOf(s[0]) == PlainClass then Plain(s[0]) else Quoted(s[0])] + PadTokens(s[1..])
  }

  /** qppad */
  function Pad(s: ByteString): ByteString {
    if s == [] then [] else Render(PadTokens(s) + [SoftBreak])
  }

  /* ---- Line wrapper ---- */

  function WrapStep(length: int): (int, Byte) -> Step<int> {
    (left: int, c: Byte) =>
      if c == CR then Step(left, [])
      else if c == LF then Step(length, CRLF)
      else if left <= (if c == EQ then 3 else 1) then Step(length - 1, EQCRLF + [c])
      else Step(left - 1, [c])
  }

  function WrapFlush(length: int): int -> Option<ByteString> {
    (left: int) => if left < length then Some(EQCRLF) else None
  }

  /* ---- Decoder ---- */

  function DecodeStep(atom: ByteString, c: Byte): Step<ByteString> {
    var a := atom + [c];
    if a[0] == EQ then
      if |a| < 3 then Step(a, [])
      else if a[1] == CR && a[2] == LF then Step([], [])
      else if Unhex(a[1]) > 15 || Unhex(a[2]) > 15 then Step([], a[..3])
      else Step([], [(Unhex(a[1]) * 16 + Unhex(a[2])) % 256])
    else if a[0] == CR then
      if |a| < 2 then Step(a, [])
      else Step([], if a[1] == LF then CRLF else [])
    else
      Step([], if a[0] == TAB || 31 < a[0] < 127 then [a[0]] else [])
  }

  function NoPad(s: ByteString): ByteString { [] }

  /* ---- The C functions, in place ---- */

  /** qpquote */
  method QpQuote(c: Byte) returns (text: ByteString)
    ensures text == RenderOne(Quoted(c))
  {
    text := [EQ, Hex(c / 16), Hex(c % 16)];
  }

  /** The bytes of the atom move down by one. */
  method Shift(input: array<Byte>, size: nat)
    requires input.Length == 3 && 1 <= size <= 3
    modifies input
    ensures input[..size - 1] == old(input[1..size])
  {
    input[0], input[1] := input[1], input[2];
  }

  method QpEncode(c: Byte, input: array<Byte>, size: nat, mode: Mode) returns (newSize: nat, text: ByteString)
    requires input.Length == 3 && size < 3
    modifies input
    ensures newSize < 3
    ensures Step(input[..newSize], text) == EncodeStep(mode)(old(input[..size]), c)
  {
    hide Render, RenderOne, Decide, ClassOf, Marker, MarkerTokens;
    NothingRendered();
    input[size] := c;
    newSize, text := size + 1, [];
    ghost var start, tokens := input[..newSize], [];
    assert start == old(input[..size]) + [c];
    assert [] + Decide(mode, start).tokens == Decide(mode, start).tokens;
    while newSize > 0
      invariant 0 <= newSize <= 3 && text == Render(tokens)
      invariant Decide(mode, start) == After(tokens, Decide(mode, input[..newSize]))
      decreases newSize
    {
      ghost var atom := input[..newSize];
      assert tokens + [] == tokens;
      DecideOnce(mode, atom);
      ghost var t: Token := Plain(input[0]);
      var piece: ByteString := [input[0]];
      match ClassOf(input[0]) {
        case CrClass =>
          if newSize < 2 { return; }
          if input[1] == LF {
            DecideLast(mode, start, tokens, atom, []);
            assert text + [] == text;
            return 0, text + Marker(mode);
          }
          piece := QpQuote(input[0]);
          t := Quoted(input[0]);
        case IfLastClass =>
          if newSize < 3 { return; }
          if input[1] == CR && input[2] == LF {
            DecideLast(mode, start, tokens, atom, [Quoted(input[0])]);
            RenderSingle(Quoted(input[0]));
            piece := QpQuote(input[0]);
            return 0, text + piece + Marker(mode);
          }
          PlainRendered(input[0]);
        case QuotedClass =>
          piece := QpQuote(input[0]);
          t := Quoted(input[0]);
        case PlainClass =>
          PlainRendered(input[0]);
      }
      text := text + piece;
      RenderAppend(tokens, [t]);
      RenderSingle(t);
      DecideMore(mode, start, tokens, t, atom);
      tokens := tokens + [t];
      Shift(input, newSize);
      newSize := newSize - 1;
      assert input[..newSize] == atom[1..];
    }
    assert tokens + [] == tokens;
    NothingToDecide(mode);
  }

  lemma PlainRendered(c: Byte)
    ensures RenderOne(Plain(c)) == [c]
  {
  }

  lemma NothingToDecide(mode: Mode)
    ensures Decide(mode, []) == Decided([], [])
  {
  }

  /** What the first byte of an atom leads to. */
  lemma DecideOnce(mode: Mode, atom: ByteString)
    requires atom != []
    ensures var d, more := Decide(mode, atom), Decide(mode, atom[1..]);
      match ClassOf(atom[0])
      case CrClass =>
        if |atom| < 2 then d == Decided(atom, [])
        else if atom[1] == LF then d == Decided([], [] + MarkerTokens(mode))
        else d == After([Quoted(atom[0])], more)
      case IfLastClass =>
        if |atom| < 3 then d == Decided(atom, [])
        else if atom[1] == CR && atom[2] == LF then d == Decided([], [Quoted(atom[0])] + MarkerTokens(mode))
        else d == After([Plain(atom[0])], more)
      case QuotedClass => d == After([Quoted(atom[0])], more)
      case PlainClass => d == After([Plain(atom[0])], more)
  {
    assert [] + MarkerTokens(mode) == MarkerTokens(mode);
  }

  lemma NothingRendered()
    ensures Render([]) == []
  {
  }

  lemma MarkerRendered(mode: Mode)
    ensures Render(MarkerTokens(mode)) == Marker(mode)
  {
    if mode.TextMode? {
      RenderSingle(HardBreak);
    } else {
      RenderSingle(Quoted(CR));
      RenderSingle(Quoted(LF));
      RenderAppend([Quoted(CR)], [Quoted(LF)]);
    }
  }

  lemma DecideLast(mode: Mode, start: ByteString, tokens: Tokens, atom: ByteString, before: Tokens)
    requires Decide(mode, start) == After(tokens, Decide(mode, atom))
    requires Decide(mode, atom) == Decided([], before + MarkerTokens(mode))
    ensures Decide(mode, start).pending == []
    ensures Render(Decide(mode, start).tokens) == Render(tokens) + Render(before) + Marker(mode)
  {
    RenderAppend(tokens, before + MarkerTokens(mode));
    RenderAppend(before, MarkerTokens(mode));
    MarkerRendered(mode);
    Assoc(Render(tokens), Render(before), Marker(mode));
  }

  lemma DecideMore(mode: Mode, start: ByteString, tokens: Tokens, t: Token, atom: ByteString)
    requires atom != [] && Decide(mode, start) == After(tokens, Decide(mode, atom))
    requires Decide(mode, atom) == After([t], Decide(mode, atom[1..]))
    ensures Decide(mode, start) == After(tokens + [t], Decide(mode, atom[1..]))
  {
    Assoc(tokens, [t], Decide(mode, atom[1..]).tokens);
  }

  method QpPad(input: array<Byte>, size: nat) returns (text: ByteString)
    requires input.Length == 3 && size < 3
    ensures text == Pad(input[..size])
  {
    hide Render, Hex, PadTokens;
    text := [];
    ghost var a := input[..size];
    assert a[0..] == a && [] + Render(PadTokens(a)) == Render(PadTokens(a));
    for i := 0 to size
      invariant text + Render(PadTokens(a[i..])) == Render(PadTokens(a))
    {
      PadStep(a, i);
      ghost var rest := Render(PadTokens(a[i + 1..]));
      var t := if ClassOf(input[i]) == PlainClass then [input[i]] else [EQ, Hex(input[i] / 16), Hex(input[i] % 16)];
      assert text + (t + rest) == text + t + rest;
      text := text + t;
    }
    assert a[size..] == [] && text + [] == text;
    NothingPadded();
    if size > 0 {
      RenderSingle(SoftBreak);
      RenderAppend(PadTokens(a), [SoftBreak]);
      text := text + EQCRLF;
    }
  }

  lemma NothingPadded()
    ensures Render(PadTokens([])) == []
  {
  }

  lemma PadStep(a: ByteString, i: nat)
    requires i < |a|
    ensures var t := if ClassOf(a[i]) == PlainClass then [a[i]] else [EQ, Hex(a[i] / 16), Hex(a[i] % 16)];
      Render(PadTokens(a[i..])) == t + Render(PadTokens(a[i + 1..]))
  {
    assert a[i..][1..] == a[i + 1..];
    assert PadTokens(a[i..])[1..] == PadTokens(a[i + 1..]);
  }

  method QpDecode(c: Byte, input: array<Byte>, size: nat) returns (newSize: nat, text: ByteString)
    requires input.Length == 3 && size < 3
    modifies input
    ensures newSize <= size + 1
    ensures Step(input[..newSize], text) == DecodeStep(old(input[..size]), c)
  {
    input[size] := c;
    newSize, text := size + 1, [];
    ghost var a := input[..newSize];
    assert a == old(input[..size]) + [c];
    if input[0] == EQ {
      if newSize < 3 { return; }
      newSize := 0;
      if input[1] == CR && input[2] == LF { return; }
      var h, l := Unhex(input[1]), Unhex(input[2]);
      if h > 15 || l > 15 {
        text := input[..3];
      } else {
        text := [(h * 16 + l) % 256];
      }
    } else if input[0] == CR {
      if newSize < 2 { return; }
      newSize := 0;
      if input[1] == LF {
        text := input[..2];
      }
    } else {
      newSize := 0;
      if input[0] == TAB || 31 < input[0] < 127 {
        text := [input[0]];
      }
    }
  }

  method FeedEncoder(input: array<Byte>, size: nat, s: ByteString, mode: Mode) returns (newSize: nat, text: ByteString)
    requires input.Length == 3 && size < 3
    modifies input
    ensures newSize < 3
    ensures Step(input[..newSize], text) == Run(EncodeStep(mode), old(input[..size]), s)
  {
    newSize, text := size, [];
    for i := 0 to |s|
      invariant newSize < 3
      invariant Step(input[..newSize], text) == Run(EncodeStep(mode), old(input[..size]), s[..i])
    {
      RunSnoc(EncodeStep(mode), old(input[..size]), s[..i], s[i]);
      assert s[..i + 1] == s[..i] + [s[i]];
      var t;
      newSize, t := QpEncode(s[i], input, newSize, mode);
      text := text + t;
    }
    assert s[..|s|] == s;
  }

  method FeedDecoder(input: array<Byte>, size: nat, s: ByteString) returns (newSize: nat, text: ByteString)
    requires input.Length == 3 && size < 3
    requires Held(input[..size])
    modifies input
    ensures newSize < 3 && Held(input[..newSize])
    ensures Step(input[..newSize], text) == Run(DecodeStep, old(input[..size]), s)
  {
    newSize, text := size, [];
    for i := 0 to |s|
      invariant newSize < 3 && Held(input[..newSize])
      invariant Step(input[..newSize], text) == Run(DecodeStep, old(input[..size]), s[..i])
    {
      RunSnoc(DecodeStep, old(input[..size]), s[..i], s[i]);
      assert s[..i + 1] == s[..i] + [s[i]];
      HeldStep(input[..newSize], s[i]);
      var t;
      newSize, t := QpDecode(s[i], input, newSize);
      text := text + t;
    }
    assert s[..|s|] == s;
  }

  /** What the decoder can hold back between two bytes. */
  predicate Held(a: ByteString) {
    a == [] || (a[0] == EQ && |a| <= 2) || a == [CR]
  }

  lemma HeldStep(a: ByteString, c: Byte)
    requires Held(a)
    ensures Held(DecodeStep(a, c).state)
  {
  }

  method MimeQpEncode(ctx: Option<ByteString>, chunk: Option<ByteString>, mode: Mode)
    returns (a: Option<ByteString>, b: Option<ByteString>)
    ensures Call(a, b) == AtomCall(EncodeStep(mode), Pad, ctx, chunk)
  {
    if ctx == None { return None, None; }
    var atom := new Byte[3];
    assert atom[..0] == [];
    var size, text := FeedEncoder(atom, 0, ctx.value, mode);
    if chunk == None {
      var p := QpPad(atom, size);
      text := text + p;
      return (if text == [] || text[0] == 0 then None else Some(text)), None;
    }
    var more;
    size, more := FeedEncoder(atom, size, chunk.value, mode);
    return Some(text + more), Some(atom[..size]);
  }

  method MimeQpDecode(ctx: Option<ByteString>, chunk: Option<ByteString>)
    returns (a: Option<ByteString>, b: Option<ByteString>)
    ensures Call(a, b) == AtomCall(DecodeStep, NoPad, ctx, chunk)
  {
    if ctx == None { return None, None; }
    var atom := new Byte[3];
    assert atom[..0] == [];
    var size, text := FeedDecoder(atom, 0, ctx.value);
    if chunk == None {
      assert text + [] == text;
      return (if text == [] || text[0] == 0 then None else Some(text)), None;
    }
    var more;
    size, more := FeedDecoder(atom, size, chunk.value);
    return Some(text + more), Some(atom[..size]);
  }

  method MimeQpWrp(left: int, chunk: Option<ByteString>, length: int) returns (a: Option<ByteString>, n: int)
    ensures Call(a, n) == CountCall(WrapStep(length), WrapFlush(length), length, left, chunk)
  {
    if chunk == None {
      return (if left < length then Some(EQCRLF) else None), length;
    }
    var s, text := chunk.value, [];
    n := left;
    for i := 0 to |s|
      invariant Step(n, text) == Run(WrapStep(length), left, s[..i])
    {
      RunSnoc(WrapStep(length), left, s[..i], s[i]);
      assert s[..i + 1] == s[..i] + [s[i]];
      var c := s[i];
      if c == LF {
        n, text := length, text + CRLF;
      } else if c == EQ {
        if n <= 3 {
          n, text := length, text + EQCRLF;
        }
        text, n := text + [c], n - 1;
      } else if c != CR {
        if n <= 1 {
          n, text := length, text + EQCRLF;
        }
        text, n := text + [c], n - 1;
      }
    }
    assert s[..|s|] == s;
    a := Some(text);
  }
}
