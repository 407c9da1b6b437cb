/** Quoted-printable byte by byte: what is emitted for any input, said with the whole input in view instead of byte
    after byte, and with the tables of c/mime.c written out. */
module MimeQpExact {
  import opened Bytes
  import opened Streams
  import opened MimeQp
  import opened MimeQpTheorems

  /** The digits of a byte. */
  function Digit(n: int): int
    requires 0 <= n < 16
  {
    "0123456789ABCDEF"[n] as int
  }

  predicate IsQuote(s: ByteString, c: Byte) {
    |s| == 3 && s[0] == 61 && s[1] == Digit(c / 16) && s[2] == Digit(c % 16)
  }

  lemma Digits(n: int)
    requires 0 <= n < 16
    ensures Hex(n) == Digit(n)
  {
    var d := "0123456789ABCDEF";
    assert d[0] == '0' && d[1] == '1' && d[2] == '2' && d[3] == '3' && d[4] == '4' && d[5] == '5' && d[6] == '6' && d[7] == '7';
    assert d[8] == '8' && d[9] == '9' && d[10] == 'A' && d[11] == 'B' && d[12] == 'C' && d[13] == 'D' && d[14] == 'E' && d[15] == 'F';
  }

  /** "=XX" */
  function Quote(c: Byte): (s: ByteString)
    ensures IsQuote(s, c)
  {
    Digits(c / 16);
    Digits(c % 16);
    [61, Hex(c / 16), Hex(c % 16)]
  }

  /* ---- Encoder ---- */

  /** Bytes that are never quoted. */
  predicate Literal(c: Byte) {
    33 <= c <= 60 || 62 <= c <= 126
  }

  /** A space or tab stays when at least two more bytes follow, and they are not CR LF. */
  predicate Stays(s: ByteString) {
    |s| >= 3 && (s[0] == 9 || s[0] == 32) && !(s[1] == 13 && s[2] == 10)
  }

  predicate Crlf(s: ByteString) {
    |s| >= 2 && s[0] == 13 && s[1] == 10
  }

  /** The text for the rest of an input: CR LF becomes the marker, and what is neither literal nor a space that stays is
      quoted. */
  function TextOf(mode: Mode, s: ByteString): ByteString
    decreases |s|
  {
    if s == [] then []
    else if Crlf(s) then (if mode.TextMode? then [13, 10] else [61, 48, 68, 61, 48, 65]) + TextOf(mode, s[2..])
    else (if Literal(s[0]) || Stays(s) then [s[0]] else Quote(s[0])) + TextOf(mode, s[1..])
  }

  /** The end of the input leaves bytes undecided: then a soft break ends the text. */
  predicate EndsOpen(s: ByteString) {
    || (s != [] && s[|s| - 1] in {9, 13, 32})
    || (|s| >= 2 && s[|s| - 2] in {9, 32})
  }

  /** Nothing can be decided yet. */
  predicate Waits(atom: ByteString) {
    atom == [] || (atom[0] == 13 && |atom| < 2) || ((atom[0] == 9 || atom[0] == 32) && |atom| < 3)
  }

  /** The first byte of an atom is decided by itself. */
  lemma FirstExact(mode: Mode, atom: ByteString, rest: ByteString) returns (t: Token)
    requires atom != [] && (|atom| <= 2 || (|atom| == 3 && IsSpace(atom[0])))
    requires !Crlf(atom) && !Crlf(atom[1..]) && (atom[0] == CR ==> |atom| >= 2) && (IsSpace(atom[0]) ==> |atom| == 3)
    ensures (t.Plain? || t.Quoted?) && Decide(mode, atom) == After([t], Decide(mode, atom[1..]))
    ensures TextOf(mode, atom + rest) == (if t.Plain? then [t.c] else Quote(t.c)) + TextOf(mode, atom[1..] + rest)
  {
    var s := atom + rest;
    assert s[0] == atom[0] && s[1..] == atom[1..] + rest;
    assert |atom| >= 2 ==> s[1] == atom[1];
    assert |atom| == 3 ==> s[2] == atom[2] && atom[1..][0] == atom[1] && atom[1..][1] == atom[2];
    t := if Literal(atom[0]) || IsSpace(atom[0]) then Plain(atom[0]) else Quoted(atom[0]);
    hide Quote;
    assert !Crlf(s);
    assert Stays(s) <==> IsSpace(atom[0]);
  }

  lemma BreakExact(mode: Mode, atom: ByteString, rest: ByteString)
    requires Crlf(atom) && |atom| == 2
    ensures Decide(mode, atom) == Decided([], MarkerTokens(mode))
    ensures TextOf(mode, atom + rest) == Render(MarkerTokens(mode)) + TextOf(mode, [] + rest)
  {
    MarkerRendered(mode);
    assert (atom + rest)[2..] == rest && [] + rest == rest;
  }

  /** What is decided is what the reference says, whatever follows. */
  lemma {:induction false} DecideExact(mode: Mode, atom: ByteString, rest: ByteString)
    requires |atom| <= 2 || (|atom| == 3 && IsSpace(atom[0]))
    ensures var d := Decide(mode, atom);
      TextOf(mode, atom + rest) == Render(d.tokens) + TextOf(mode, d.pending + rest)
    decreases atom
  {
    hide Render, RenderOne, TextOf;
    var d := Decide(mode, atom);
    NothingRendered();
    assert [] + TextOf(mode, atom + rest) == TextOf(mode, atom + rest);
    if !Waits(atom) {
      if Crlf(atom) {
        BreakExact(mode, atom, rest);
      } else if |atom| == 3 && Crlf(atom[1..]) {
        SpaceBreak(mode, atom, rest);
      } else {
        DecideExact(mode, atom[1..], rest);
        var e := Decide(mode, atom[1..]);
        var t := FirstExact(mode, atom, rest);
        OneRendered(mode, t, e);
        Assoc(if t.Plain? then [t.c] else Quote(t.c), Render(e.tokens), TextOf(mode, e.pending + rest));
      }
    }
  }

  lemma OneRendered(mode: Mode, t: Token, d: Decided)
    requires t.Plain? || t.Quoted?
    ensures Render(After([t], d).tokens) == (if t.Plain? then [t.c] else Quote(t.c)) + Render(d.tokens)
  {
    RenderAppend([t], d.tokens);
    RenderSingle(t);
  }

  lemma SpaceBreak(mode: Mode, atom: ByteString, rest: ByteString)
    requires |atom| == 3 && IsSpace(atom[0]) && atom[1] == 13 && atom[2] == 10
    ensures var d := Decide(mode, atom);
      TextOf(mode, atom + rest) == Render(d.tokens) + TextOf(mode, d.pending + rest)
  {
    hide Render, RenderOne;
    var s := atom + rest;
    var m := MarkerTokens(mode);
    assert s[1..][2..] == rest && [] + rest == rest;
    RenderAppend([Quoted(atom[0])], m);
    RenderSingle(Quoted(atom[0]));
    MarkerRendered(mode);
    assert RenderOne(Quoted(atom[0])) == Quote(atom[0]) by { QuotedIs(atom[0]); }
    assert TextOf(mode, s) == Quote(s[0]) + TextOf(mode, s[1..]);
    assert TextOf(mode, s[1..]) == Marker(mode) + TextOf(mode, rest);
    Assoc(Quote(s[0]), Marker(mode), TextOf(mode, rest));
  }

  lemma QuotedIs(c: Byte)
    ensures RenderOne(Quoted(c)) == Quote(c)
  {
  }

  lemma {:induction false} EncodesExact(mode: Mode, atom: ByteString, s: ByteString)
    requires Pending(atom)
    ensures var d := EncodeTokens(mode, atom, s);
      TextOf(mode, atom + s) == Render(d.tokens) + TextOf(mode, d.pending) && Pending(d.pending)
    decreases s
  {
    hide Decide, Render, TextOf, Decides;
    NothingRendered();
    if s == [] {
      assert atom + s == atom && [] + TextOf(mode, atom) == TextOf(mode, atom);
    } else {
      var a, rest := atom + [s[0]], s[1..];
      assert a + rest == atom + s;
      DecideKeeps(mode, a);
      PendingDecided(Decide(mode, a), a);
      DecideExact(mode, a, rest);
      var d := Decide(mode, a);
      EncodesExact(mode, d.pending, rest);
      var e := EncodeTokens(mode, d.pending, rest);
      RenderAppend(d.tokens, e.tokens);
      Assoc(Render(d.tokens), Render(e.tokens), TextOf(mode, e.pending));
    }
  }

  /** What is pending at the end is quoted as the reference says. */
  lemma PadExact(mode: Mode, p: ByteString)
    requires Pending(p)
    ensures Render(PadTokens(p)) == TextOf(mode, p)
  {
    hide Render, RenderOne;
    NothingRendered();
    if p != [] {
      PadOne(p);
      assert TextOf(mode, p) == (if Literal(p[0]) then [p[0]] else Quote(p[0])) + TextOf(mode, p[1..]);
      if |p| == 2 {
        PadOne(p[1..]);
        assert p[1..][1..] == [];
      }
      assert TextOf(mode, []) == [];
    }
  }

  lemma PadOne(p: ByteString)
    requires p != []
    ensures Render(PadTokens(p)) == (if Literal(p[0]) then [p[0]] else Quote(p[0])) + Render(PadTokens(p[1..]))
  {
    var t := if Literal(p[0]) then Plain(p[0]) else Quoted(p[0]);
    RenderAppend([t], PadTokens(p[1..]));
    RenderSingle(t);
    QuotedIs(p[0]);
  }

  lemma DecideOpen(mode: Mode, atom: ByteString, rest: ByteString)
    requires |atom| <= 2 || (|atom| == 3 && IsSpace(atom[0]))
    ensures EndsOpen(Decide(mode, atom).pending + rest) == EndsOpen(atom + rest)
    decreases atom
  {
    var d := Decide(mode, atom);
    if !Waits(atom) {
      if Crlf(atom) {
        FrontGone(atom, rest);
      } else if |atom| == 3 && Crlf(atom[1..]) {
        FrontGone(atom, rest);
      } else {
        DecideOpen(mode, atom[1..], rest);
        assert d.pending == Decide(mode, atom[1..]).pending;
        FirstGone(atom, rest);
      }
    }
  }

  lemma FirstGone(atom: ByteString, rest: ByteString)
    requires atom != [] && (IsSpace(atom[0]) ==> |atom| >= 3) && (atom[0] == CR ==> |atom| >= 2)
    ensures EndsOpen(atom[1..] + rest) == EndsOpen(atom + rest)
  {
    var s, t := atom + rest, atom[1..] + rest;
    assert t == s[1..];
    assert |t| >= 1 ==> t[|t| - 1] == s[|s| - 1];
    assert |t| >= 2 ==> t[|t| - 2] == s[|s| - 2];
  }

  lemma FrontGone(atom: ByteString, rest: ByteString)
    requires |atom| >= 2 && atom[|atom| - 1] == LF && atom[|atom| - 2] == CR
    ensures EndsOpen([] + rest) == EndsOpen(atom + rest)
  {
    var s := atom + rest;
    assert [] + rest == rest;
    assert |rest| >= 1 ==> s[|s| - 1] == rest[|rest| - 1];
    assert |rest| >= 2 ==> s[|s| - 2] == rest[|rest| - 2];
    assert |rest| == 1 ==> s[|s| - 2] == LF;
    assert |rest| == 0 ==> s == atom;
  }

  lemma {:induction false} OpenExact(mode: Mode, atom: ByteString, s: ByteString)
    requires Pending(atom)
    ensures EncodeTokens(mode, atom, s).pending != [] <==> EndsOpen(atom + s)
    decreases s
  {
    hide Decide, Decides;
    if s == [] {
      assert atom + s == atom;
    } else {
      var a, rest := atom + [s[0]], s[1..];
      assert a + rest == atom + s;
      DecideKeeps(mode, a);
      PendingDecided(Decide(mode, a), a);
      DecideOpen(mode, a, rest);
      OpenExact(mode, Decide(mode, a).pending, rest);
    }
  }

  /** The encoding filter, for every input and every chunking: exactly this text, and a soft break behind it when the
      input ends with undecided bytes. */
  lemma EncodedText(mode: Mode, chunks: seq<ByteString>)
    ensures var s := Concat(chunks);
      AtomPump(EncodeStep(mode), Pad, Some([]), chunks) ==
      TextOf(mode, s) + if EndsOpen(s) then [61, 13, 10] else []
  {
    hide Decide, Render, TextOf, PadTokens, EndsOpen, Run;
    var s := Concat(chunks);
    EncoderFilter(mode, chunks);
    var d := EncodeTokens(mode, [], s);
    EncodesExact(mode, [], s);
    OpenExact(mode, [], s);
    assert [] + s == s;
    PadExact(mode, d.pending);
    RenderAppend(PadTokens(d.pending), [SoftBreak]);
    RenderSingle(SoftBreak);
    RenderAppend(d.tokens, PadTokens(d.pending) + [SoftBreak]);
    NothingRendered();
    Assoc(Render(d.tokens), Render(PadTokens(d.pending)), [61, 13, 10]);
    if d.pending == [] {
      NothingPadded();
      assert d.tokens + [] == d.tokens;
      assert Render(d.tokens) + [] == Render(d.tokens);
      assert TextOf(mode, s) + [] == TextOf(mode, s);
    }
  }

  /** Text of literal bytes only is emitted as it is. */
  lemma LiteralText(mode: Mode, chunks: seq<ByteString>)
    requires forall i :: 0 <= i < |Concat(chunks)| ==> Literal(Concat(chunks)[i])
    ensures AtomPump(EncodeStep(mode), Pad, Some([]), chunks) == Concat(chunks)
  {
    var s := Concat(chunks);
    EncodedText(mode, chunks);
    LiteralTextOf(mode, s);
    assert s + [] == s;
  }

  lemma {:induction false} LiteralTextOf(mode: Mode, s: ByteString)
    requires forall i :: 0 <= i < |s| ==> Literal(s[i])
    ensures TextOf(mode, s) == s
    decreases |s|
  {
    if s != [] {
      LiteralTextOf(mode, s[1..]);
      assert [s[0]] + s[1..] == s;
    }
  }

  /* ---- Line wrapper ---- */

  /** Lines as full as they can be: a token goes on the line as long as a soft break still fits behind it. used is what
      the line holds. At the end, a line that has been begun is ended. */
  function WrappedText(length: int, used: int, ts: Tokens): ByteString
    decreases ts
  {
    if ts == [] then (if used > 0 then [61, 13, 10] else [])
    else
      var t, rest := RenderOne(ts[0]), ts[1..];
      if ts[0].HardBreak? then [13, 10] + WrappedText(length, 0, rest)
      else if ts[0].SoftBreak? then (if used + 4 > length then [61, 13, 10] else []) + [61, 13, 10] + WrappedText(length, 0, rest)
      else if used + |t| + 1 > length then [61, 13, 10] + t + WrappedText(length, |t|, rest)
      else t + WrappedText(length, used + |t|, rest)
  }

  lemma {:induction false} WrapsFrom(length: int, left: int, ts: Tokens)
    requires length >= 4 && 1 <= left <= length && GoodTokens(ts)
    ensures Render(WrapTokens(length, left, ts)) + (if LeftAtEnd(length, left, ts) < length then [61, 13, 10] else []) ==
            WrappedText(length, length - left, ts)
    decreases ts
  {
    hide Render, RenderOne, Run, WrapOne;
    NothingRendered();
    if ts != [] {
      var t, left' := ts[0], LeftAfter(length, left, ts[0]);
      assert GoodToken(t) && GoodTokens(ts[1..]);
      WrapToken(length, left, t);
      WrapsFrom(length, left', ts[1..]);
      RenderAppend(WrapOne(left, t), WrapTokens(length, left', ts[1..]));
      var flush := if LeftAtEnd(length, left, ts) < length then [61, 13, 10] else [];
      Assoc(Render(WrapOne(left, t)), Render(WrapTokens(length, left', ts[1..])), flush);
      OneWrapped(length, left, t);
    }
  }

  lemma OneWrapped(length: int, left: int, t: Token)
    requires length >= 4 && 1 <= left <= length
    ensures var used, n, w := length - left, |RenderOne(t)|, Render(WrapOne(left, t));
      && (t.HardBreak? ==> w == [13, 10] && LeftAfter(length, left, t) == length)
      && (t.SoftBreak? ==> w == (if used + 4 > length then [61, 13, 10] else []) + [61, 13, 10]
                           && LeftAfter(length, left, t) == length)
      && (t.Plain? || t.Quoted? ==>
            if used + n + 1 > length then w == [61, 13, 10] + RenderOne(t) && length - LeftAfter(length, left, t) == n
            else w == RenderOne(t) && length - LeftAfter(length, left, t) == used + n)
  {
    RenderWrapOne(left, t);
  }

  /** The wrapped form of encoded text, for every length that has room for a quoted byte. */
  lemma WrapsExactly(length: int, ts: Tokens)
    requires length >= 4 && GoodTokens(ts)
    ensures CountWhole(WrapStep(length), WrapFlush(length), length, Render(ts)) == WrappedText(length, 0, ts)
  {
    hide Render, Run, WrapTokens, LeftAtEnd;
    Wraps(length, ts);
    WrapsFrom(length, length, ts);
    RenderAppend(WrapTokens(length, length, ts), [SoftBreak]);
    RenderSingle(SoftBreak);
    assert WrapTokens(length, length, ts) + [] == WrapTokens(length, length, ts);
    assert Render(WrapTokens(length, length, ts)) + [] == Render(WrapTokens(length, length, ts));
  }

  /* ---- Decoder ---- */

  /** A digit in either case. */
  predicate IsDigit(c: Byte, n: int) {
    0 <= n < 16 && (c == "0123456789ABCDEF"[n] as int || c == "0123456789abcdef"[n] as int)
  }

  lemma DigitsRead(c: Byte, n: int)
    ensures IsDigit(c, n) <==> Unhex(c) == n && n <= 15
  {
    var u, d := "0123456789ABCDEF", "0123456789abcdef";
    assert u[0] == '0' && u[1] == '1' && u[2] == '2' && u[3] == '3' && u[4] == '4' && u[5] == '5' && u[6] == '6' && u[7] == '7';
    assert u[8] == '8' && u[9] == '9' && u[10] == 'A' && u[11] == 'B' && u[12] == 'C' && u[13] == 'D' && u[14] == 'E' && u[15] == 'F';
    assert d[0] == '0' && d[1] == '1' && d[2] == '2' && d[3] == '3' && d[4] == '4' && d[5] == '5' && d[6] == '6' && d[7] == '7';
    assert d[8] == '8' && d[9] == '9' && d[10] == 'a' && d[11] == 'b' && d[12] == 'c' && d[13] == 'd' && d[14] == 'e' && d[15] == 'f';
  }

  ghost predicate IsByte(x: Byte, y: Byte, b: Byte) {
    exists n, m :: IsDigit(x, n) && IsDigit(y, m) && b == 16 * n + m
  }

  /** The first three bytes of s, an "=" and two more. */
  ghost predicate Unquotes(s: ByteString, text: ByteString)
    requires |s| >= 3
  {
    if s[1] == 13 && s[2] == 10 then text == []
    else (exists b: Byte :: IsByte(s[1], s[2], b) && text == [b]) ||
         ((forall b: Byte :: !IsByte(s[1], s[2], b)) && text == s[..3])
  }

  /** t is the decoded form of s: "=XX" is a byte, "=" CR LF nothing, anything else behind "=" stands as it is; CR LF
      stays, a CR and what else follows it goes; tabs and printable bytes stay, other bytes go. What is cut off at the
      end, an "=" with less than two bytes or a CR alone, is dropped. */
  ghost predicate DecodesTo(s: ByteString, t: ByteString)
    decreases |s|
  {
    if s == [] then t == []
    else if s[0] == 61 then
      if |s| < 3 then t == [] else exists a, b :: t == a + b && Unquotes(s, a) && DecodesTo(s[3..], b)
    else if s[0] == 13 then
      if |s| < 2 then t == []
      else exists b :: t == (if s[1] == 10 then [13, 10] else []) + b && DecodesTo(s[2..], b)
    else exists b :: t == (if s[0] == 9 || 32 <= s[0] <= 126 then [s[0]] else []) + b && DecodesTo(s[1..], b)
  }

  lemma ByteRead(x: Byte, y: Byte, b: Byte)
    ensures IsByte(x, y, b) <==> Unhex(x) <= 15 && Unhex(y) <= 15 && b == 16 * Unhex(x) + Unhex(y)
  {
    hide IsDigit, Unhex;
    DigitsRead(x, Unhex(x));
    DigitsRead(y, Unhex(y));
    forall n, m | IsDigit(x, n) && IsDigit(y, m) ensures n == Unhex(x) && m == Unhex(y) {
      DigitsRead(x, n);
      DigitsRead(y, m);
    }
  }

  /** Three bytes, as the decoder takes them. */
  lemma Unquoted3(u: ByteString)
    requires |u| == 3 && u[0] == EQ
    ensures Unquotes(u, DecodeStep(u[..2], u[2]).text) && DecodeStep(u[..2], u[2]).state == []
  {
    hide Unhex, IsByte;
    assert u[..2] + [u[2]] == u && u[..3] == u;
    var h, l := Unhex(u[1]), Unhex(u[2]);
    if h <= 15 && l <= 15 {
      ByteRead(u[1], u[2], 16 * h + l);
    } else {
      forall b: Byte ensures !IsByte(u[1], u[2], b) {
        ByteRead(u[1], u[2], b);
      }
    }
  }

  lemma UnitDecoded(a: ByteString, c: Byte)
    requires Held(a) && DecodeStep(a, c).state == []
    ensures var u, text := a + [c], DecodeStep(a, c).text;
      && (u[0] == 61 ==> |u| == 3 && Unquotes(u, text))
      && (u[0] == 13 ==> |u| == 2 && text == if u[1] == 10 then [13, 10] else [])
      && (u[0] != 61 && u[0] != 13 ==> |u| == 1 && text == if u[0] == 9 || 32 <= u[0] <= 126 then [u[0]] else [])
  {
    hide Unquotes, Unhex;
    var u := a + [c];
    if u[0] == EQ {
      assert u[..2] == a && u[2] == c;
      Unquoted3(u);
    }
  }

  lemma {:induction false} Decodes(atom: ByteString, s: ByteString)
    requires Held(atom)
    ensures DecodesTo(atom + s, Run(DecodeStep, atom, s).text)
    decreases s
  {
    hide Unquotes, DecodeStep;
    RunCons(DecodeStep, atom, s);
    if s == [] {
      assert atom + s == atom;
    } else {
      var a, u, rest := DecodeStep(atom, s[0]), atom + [s[0]], s[1..];
      assert u + rest == atom + s;
      HeldStep(atom, s[0]);
      Decodes(a.state, rest);
      var t := Run(DecodeStep, a.state, rest).text;
      OneStep(atom, s[0]);
      if a.state != [] {
        assert [] + t == t;
      } else {
        UnitDecoded(atom, s[0]);
        assert [] + rest == rest;
        UnitInFront(u, rest, a.text, t);
      }
    }
  }

  lemma OneStep(a: ByteString, c: Byte)
    requires Held(a)
    ensures DecodeStep(a, c).state == [] || (DecodeStep(a, c).state == a + [c] && DecodeStep(a, c).text == [])
  {
  }

  lemma UnitInFront(u: ByteString, rest: ByteString, a: ByteString, t: ByteString)
    requires u != [] && DecodesTo(rest, t)
    requires u[0] == 61 ==> |u| == 3 && Unquotes(u, a)
    requires u[0] == 13 ==> |u| == 2 && a == if u[1] == 10 then [13, 10] else []
    requires u[0] != 61 && u[0] != 13 ==> |u| == 1 && a == if u[0] == 9 || 32 <= u[0] <= 126 then [u[0]] else []
    ensures DecodesTo(u + rest, a + t)
  {
    var s := u + rest;
    assert s[|u|..] == rest && s[..|u|] == u && s[0] == u[0];
    if u[0] == 61 {
      assert s[1] == u[1] && s[2] == u[2] && u[..3] == s[..3];
      assert Unquotes(s, a);
    } else if u[0] == 13 {
      assert s[1] == u[1];
    }
  }

  /** The decoding filter, for every input, encoded or not, and every chunking. */
  lemma DecodedText(chunks: seq<ByteString>)
    ensures DecodesTo(Concat(chunks), AtomPump(DecodeStep, NoPad, Some([]), chunks))
  {
    DecoderFilter(chunks);
    Decodes([], Concat(chunks));
    assert [] + Concat(chunks) == Concat(chunks);
  }

  /** There is only one decoded form. */
  lemma {:induction false} OneDecoding(s: ByteString, t: ByteString, t': ByteString)
    requires DecodesTo(s, t) && DecodesTo(s, t')
    ensures t == t'
    decreases |s|
  {
    hide Unquotes;
    if s != [] && s[0] == 61 && |s| >= 3 {
      var a, b :| t == a + b && Unquotes(s, a) && DecodesTo(s[3..], b);
      var a', b' :| t' == a' + b' && Unquotes(s, a') && DecodesTo(s[3..], b');
      OneDecoding(s[3..], b, b');
      OneUnquoting(s, a, a');
    } else if s != [] && s[0] == 13 && |s| >= 2 {
      var front := if s[1] == 10 then [13, 10] else [];
      var b :| t == front + b && DecodesTo(s[2..], b);
      var b' :| t' == front + b' && DecodesTo(s[2..], b');
      OneDecoding(s[2..], b, b');
    } else if s != [] && s[0] != 61 && s[0] != 13 {
      var front := if s[0] == 9 || 32 <= s[0] <= 126 then [s[0]] else [];
      var b :| t == front + b && DecodesTo(s[1..], b);
      var b' :| t' == front + b' && DecodesTo(s[1..], b');
      OneDecoding(s[1..], b, b');
    }
  }

  lemma OneUnquoting(s: ByteString, a: ByteString, a': ByteString)
    requires |s| >= 3 && Unquotes(s, a) && Unquotes(s, a')
    ensures a == a'
  {
    hide IsByte, Unhex;
    forall b: Byte, b': Byte | IsByte(s[1], s[2], b) && IsByte(s[1], s[2], b') ensures b == b' {
      ByteRead(s[1], s[2], b);
      ByteRead(s[1], s[2], b');
    }
  }
}
