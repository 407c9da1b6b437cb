/** What quoted-printable is for: decoding gives back what was encoded, and the encoded lines are
    the ones that section 6.7 of RFC 2045 allows. */
module MimeQpTheorems {
  import opened Bytes
  import opened Streams
  import opened MimeQp

  /* ---- Encoder: tokens that stand for the input ---- */

  /** What the encoder can hold back between two bytes. */
  predicate Pending(a: ByteString) {
    || a == []
    || (|a| == 1 && (a[0] == CR || IsSpace(a[0])))
    || (|a| == 2 && IsSpace(a[0]))
  }

  /** No plain space right before a line break of the text. */
  predicate NoSpaceBreak(ts: Tokens) {
    forall i :: 0 <= i < |ts| - 1 && ts[i].Plain? && IsSpace(ts[i].c) ==> !ts[i + 1].HardBreak?
  }

  predicate EndsWithSpace(ts: Tokens) {
    ts != [] && ts[|ts| - 1].Plain? && IsSpace(ts[|ts| - 1].c)
  }

  /** After tokens that end with a plain space, the first undecided byte is another space. */
  predicate Guarded(d: Decided) {
    EndsWithSpace(d.tokens) ==> d.pending != [] && IsSpace(d.pending[0])
  }

  /** The decided tokens are well formed, and stand for what is no longer pending. */
  predicate Decides(d: Decided, s: ByteString) {
    && Pending(d.pending) && Meaning(d.tokens) + d.pending == s
    && GoodTokens(d.tokens) && NoSpaceBreak(d.tokens) && Guarded(d)
  }

  lemma MarkerMeans(mode: Mode)
    ensures Meaning(MarkerTokens(mode)) == CRLF
  {
    if mode.TextMode? {
      RenderSingle(HardBreak);
    } else {
      RenderSingle(Quoted(CR));
      RenderSingle(Quoted(LF));
      RenderAppend([Quoted(CR)], [Quoted(LF)]);
    }
  }

  /** One more decided token in front. */
  lemma Prepend(t: Token, c: Byte, tail: ByteString, d: Decided)
    requires MeaningOne(t) == [c] && GoodToken(t) && !t.HardBreak? && Decides(d, tail)
    requires t.Plain? && IsSpace(c) ==>
      if d.tokens == [] then tail != [] && IsSpace(tail[0]) else !d.tokens[0].HardBreak?
    ensures Decides(After([t], d), [c] + tail)
  {
    var ts := [t] + d.tokens;
    RenderSingle(t);
    RenderAppend([t], d.tokens);
    assert [c] + (Meaning(d.tokens) + d.pending) == [c] + Meaning(d.tokens) + d.pending;
    forall i | 0 <= i < |ts| ensures GoodToken(ts[i]) {
      assert i > 0 ==> ts[i] == d.tokens[i - 1];
    }
    forall i | 0 <= i < |ts| - 1 && ts[i].Plain? && IsSpace(ts[i].c) ensures !ts[i + 1].HardBreak? {
      assert ts[i + 1] == d.tokens[i];
      assert i > 0 ==> ts[i] == d.tokens[i - 1];
    }
  }

  /** A line break of the text is decided. */
  lemma DecideMarker(mode: Mode, before: Tokens, s: ByteString)
    requires |before| <= 1 && (before != [] ==> before[0].Quoted?)
    requires s == (if before == [] then [] else [before[0].c]) + CRLF
    ensures Decides(Decided([], before + MarkerTokens(mode)), s)
  {
    MarkerMeans(mode);
    RenderAppend(before, MarkerTokens(mode));
    if before != [] {
      RenderSingle(before[0]);
    }
  }

  /** The first token decided, if any, is not a line break, unless the bytes start with one. */
  predicate FirstIsNoBreak(d: Decided) {
    d.tokens != [] ==> !d.tokens[0].HardBreak?
  }

  lemma {:induction false} DecideKeeps(mode: Mode, atom: ByteString)
    requires |atom| <= 2 || (|atom| == 3 && IsSpace(atom[0]))
    ensures Decides(Decide(mode, atom), atom)
    ensures !StartsCrlf(atom) ==> FirstIsNoBreak(Decide(mode, atom))
    decreases atom
  {
    hide Decides, Meaning, Render, MarkerTokens;
    if atom == [] {
      Undecided(atom);
    } else {
      var c, tail := atom[0], atom[1..];
      assert atom == [c] + tail;
      DecideKeeps(mode, tail);
      var d := Decide(mode, tail);
      PendingDecided(d, tail);
      match ClassOf(c) {
        case CrClass =>
          if |atom| < 2 {
            Undecided(atom);
          } else if atom[1] == LF {
            DecideMarker(mode, [], atom);
            assert [] + MarkerTokens(mode) == MarkerTokens(mode);
          } else {
            Prepend(Quoted(c), c, tail, d);
          }
        case IfLastClass =>
          if |atom| < 3 {
            Undecided(atom);
          } else if StartsCrlf(tail) {
            DecideMarker(mode, [Quoted(c)], atom);
          } else {
            Prepend(Plain(c), c, tail, d);
          }
        case QuotedClass => Prepend(Quoted(c), c, tail, d);
        case PlainClass => Prepend(Plain(c), c, tail, d);
      }
    }
  }

  lemma Undecided(atom: ByteString)
    requires Pending(atom)
    ensures Decides(Decided(atom, []), atom)
  {
    assert [] + atom == atom;
  }

  /** Everything the encoder decides while it is fed s, from some pending bytes on. */
  function EncodeTokens(mode: Mode, atom: ByteString, s: ByteString): Decided
    decreases s
  {
    if s == [] then Decided(atom, [])
    else
      var d := Decide(mode, atom + [s[0]]);
      After(d.tokens, EncodeTokens(mode, d.pending, s[1..]))
  }

  lemma {:induction false} EncodeRuns(mode: Mode, atom: ByteString, s: ByteString)
    ensures var d := EncodeTokens(mode, atom, s);
      Run(EncodeStep(mode), atom, s) == Step(d.pending, Render(d.tokens))
    decreases s
  {
    if s != [] {
      var d := Decide(mode, atom + [s[0]]);
      EncodeRuns(mode, d.pending, s[1..]);
      RenderAppend(d.tokens, EncodeTokens(mode, d.pending, s[1..]).tokens);
    }
  }

  lemma MeaningJoin(d: Decided, s: ByteString, e: Decided, t: ByteString)
    requires Meaning(d.tokens) + d.pending == s && Meaning(e.tokens) + e.pending == d.pending + t
    ensures Meaning(d.tokens + e.tokens) + e.pending == s + t
  {
    RenderAppend(d.tokens, e.tokens);
    Assoc(Meaning(d.tokens), Meaning(e.tokens), e.pending);
    Assoc(Meaning(d.tokens), d.pending, t);
  }

  lemma GoodJoin(a: Tokens, b: Tokens)
    requires GoodTokens(a) && GoodTokens(b) && NoSpaceBreak(a) && NoSpaceBreak(b)
    requires EndsWithSpace(a) && b != [] ==> !b[0].HardBreak?
    ensures GoodTokens(a + b) && NoSpaceBreak(a + b)
  {
    var ts := a + b;
    forall i | 0 <= i < |ts| - 1 && ts[i].Plain? && IsSpace(ts[i].c) ensures !ts[i + 1].HardBreak? {
      if i >= |a| {
        assert ts[i] == b[i - |a|] && ts[i + 1] == b[i + 1 - |a|];
      }
    }
  }

  /** Two stretches of decided tokens, one after the other. */
  lemma DecidesJoin(d: Decided, s: ByteString, e: Decided, t: ByteString)
    requires Decides(d, s) && Decides(e, d.pending + t)
    requires d.pending != [] && IsSpace(d.pending[0]) ==> FirstIsNoBreak(e)
    requires e.tokens == [] && d.pending != [] ==> e.pending != [] && e.pending[0] == d.pending[0]
    ensures Decides(After(d.tokens, e), s + t)
  {
    MeaningJoin(d, s, e, t);
    GoodJoin(d.tokens, e.tokens);
  }

  lemma {:induction false} EncodeKeeps(mode: Mode, atom: ByteString, s: ByteString)
    requires Pending(atom)
    ensures var d := EncodeTokens(mode, atom, s);
      && Decides(d, atom + s)
      && (atom != [] && IsSpace(atom[0]) ==> FirstIsNoBreak(d))
      && (d.tokens == [] && atom != [] ==> d.pending != [] && d.pending[0] == atom[0])
    decreases s
  {
    hide Decides, Decide, Meaning, Render;
    if s == [] {
      Undecided(atom);
      assert atom + s == atom;
    } else {
      var a := atom + [s[0]];
      DecideKeeps(mode, a);
      var d := Decide(mode, a);
      PendingDecided(d, a);
      EncodeKeeps(mode, d.pending, s[1..]);
      DecidesJoin(d, a, EncodeTokens(mode, d.pending, s[1..]), s[1..]);
      assert a + s[1..] == atom + s;
    }
  }

  lemma PendingDecided(d: Decided, s: ByteString)
    requires Decides(d, s)
    ensures Pending(d.pending) && (d.tokens == [] ==> d.pending == s)
  {
    if d.tokens == [] {
      assert [] + d.pending == d.pending;
    }
  }

  /** Feeding pending bytes again leaves them pending. */
  lemma PendingReplays(mode: Mode, a: ByteString)
    requires Pending(a)
    ensures Run(EncodeStep(mode), [], a) == Step(a, [])
  {
    if a != [] {
      assert [] + [a[0]] == [a[0]];
      assert Decide(mode, [a[0]]) == Decided([a[0]], []);
      RunSnoc(EncodeStep(mode), [], [], a[0]);
      assert a[..1] == [] + [a[0]];
      assert Run(EncodeStep(mode), [], a[..1]) == Step(a[..1], []);
      if |a| == 2 {
        RunSnoc(EncodeStep(mode), [], a[..1], a[1]);
        assert a == a[..1] + [a[1]];
      } else {
        assert a == a[..1];
      }
    }
  }

  lemma EncoderReplays(mode: Mode)
    ensures Replays(EncodeStep(mode))
  {
    forall s ensures ReplaysAfter(EncodeStep(mode), s) {
      EncodeRuns(mode, [], s);
      EncodeKeeps(mode, [], s);
      PendingReplays(mode, EncodeTokens(mode, [], s).pending);
    }
  }

  /** All the tokens for a whole input, with those of the padding. */
  function AllTokens(mode: Mode, s: ByteString): Tokens {
    var d := EncodeTokens(mode, [], s);
    d.tokens + if d.pending == [] then [] else PadTokens(d.pending) + [SoftBreak]
  }

  /** Padding stands for the pending bytes. */
  lemma {:induction false} PadMeans(s: ByteString)
    ensures Meaning(PadTokens(s)) == s && GoodTokens(PadTokens(s)) && |PadTokens(s)| == |s|
    ensures forall i :: 0 <= i < |s| ==> PadTokens(s)[i].Quoted? || (PadTokens(s)[i].Plain? && !IsSpace(PadTokens(s)[i].c))
  {
    if s != [] {
      PadMeans(s[1..]);
      var t := if ClassOf(s[0]) == PlainClass then Plain(s[0]) else Quoted(s[0]);
      assert PadTokens(s) == [t] + PadTokens(s[1..]);
      assert PadTokens(s)[1..] == PadTokens(s[1..]);
    }
  }

  lemma PadTail(p: ByteString)
    ensures var ts := if p == [] then [] else PadTokens(p) + [SoftBreak];
      && Pad(p) == Render(ts) && Meaning(ts) == p && GoodTokens(ts)
      && (forall i :: 0 <= i < |ts| ==> !EndsWithSpace([ts[i]]) && !ts[i].HardBreak?)
  {
    PadMeans(p);
    if p != [] {
      RenderSingle(SoftBreak);
      RenderAppend(PadTokens(p), [SoftBreak]);
      assert p + [] == p;
    }
  }

  /** The encoder's output for a whole input is well-formed tokens that stand for it. */
  lemma Encodes(mode: Mode, s: ByteString)
    ensures Whole(EncodeStep(mode), Pad, s) == Render(AllTokens(mode, s))
    ensures Meaning(AllTokens(mode, s)) == s
    ensures GoodTokens(AllTokens(mode, s)) && NoSpaceBreak(AllTokens(mode, s))
  {
    hide Run, EncodeTokens, Decide, Render, Meaning, PadTokens;
    EncodeRuns(mode, [], s);
    EncodeKeeps(mode, [], s);
    assert [] + s == s;
    var d := EncodeTokens(mode, [], s);
    var p := if d.pending == [] then [] else PadTokens(d.pending) + [SoftBreak];
    PadTail(d.pending);
    NothingRendered();
    RenderAppend(d.tokens, p);
    var all := d.tokens + p;
    forall i | 0 <= i < |all| - 1 && all[i].Plain? && IsSpace(all[i].c) ensures !all[i + 1].HardBreak? {
      if i + 1 >= |d.tokens| {
        assert all[i + 1] == p[i + 1 - |d.tokens|];
      }
    }
  }

  /** The encoding filter, over any chunking of its input. */
  lemma EncoderFilter(mode: Mode, chunks: seq<ByteString>)
    ensures AtomPump(EncodeStep(mode), Pad, Some([]), chunks) == Render(AllTokens(mode, Concat(chunks)))
  {
    EncoderReplays(mode);
    assert PadsPlainly(EncodeStep(mode), Pad) by {
      forall s ensures PadAfter(EncodeStep(mode), Pad, s) == [] || PadAfter(EncodeStep(mode), Pad, s)[0] != 0 {
        PadPlain(Run(EncodeStep(mode), [], s).state);
      }
    }
    AtomPumpIsWhole(EncodeStep(mode), Pad, [], chunks);
    assert [] + Concat(chunks) == Concat(chunks);
    Encodes(mode, Concat(chunks));
  }

  lemma PadPlain(p: ByteString)
    ensures Pad(p) == [] || Pad(p)[0] != 0
  {
    if p != [] {
      var ts := PadTokens(p) + [SoftBreak];
      assert ts[0] == PadTokens(p)[0];
      assert Pad(p)[0] == RenderOne(ts[0])[0];
    }
  }

  /* ---- Line wrapper: soft breaks inserted between tokens ---- */

  /** The room that a token needs, and takes, on the current line. */
  function Width(t: Token): int {
    match t
    case Plain(_) => 1
    case Quoted(_) => 3
    case _ => 0
  }

  /** The tokens for t, given the room left: a soft break first when t would not fit before one. */
  function WrapOne(left: int, t: Token): Tokens {
    if left <= (if t.Plain? then 1 else if t.HardBreak? then 0 else 3) then [SoftBreak, t] else [t]
  }

  function LeftAfter(length: int, left: int, t: Token): int {
    if t.HardBreak? || t.SoftBreak? then length
    else (if |WrapOne(left, t)| == 2 then length else left) - Width(t)
  }

  function WrapTokens(length: int, left: int, ts: Tokens): Tokens
    decreases ts
  {
    if ts == [] then []
    else WrapOne(left, ts[0]) + WrapTokens(length, LeftAfter(length, left, ts[0]), ts[1..])
  }

  function LeftAtEnd(length: int, left: int, ts: Tokens): int
    decreases ts
  {
    if ts == [] then left else LeftAtEnd(length, LeftAfter(length, left, ts[0]), ts[1..])
  }

  lemma HexDigit(n: int)
    requires 0 <= n < 16
    ensures Unhex(Hex(n)) == n && UpperHex(Hex(n)) && Hex(n) != CR && Hex(n) != LF && Hex(n) != EQ
  {
  }

  /** Three bytes through the wrapper. */
  lemma Wrap3(length: int, left: int, s: ByteString)
    requires |s| == 3
    ensures var w := WrapStep(length);
      var a := w(left, s[0]); var b := w(a.state, s[1]); var c := w(b.state, s[2]);
      Run(w, left, s) == Step(c.state, a.text + b.text + c.text)
  {
    var w := WrapStep(length);
    assert s[..0] == [] && s[..1] == s[..0] + [s[0]] && s[..2] == s[..1] + [s[1]] && s == s[..2] + [s[2]];
    RunSnoc(w, left, s[..0], s[0]);
    RunSnoc(w, left, s[..1], s[1]);
    RunSnoc(w, left, s[..2], s[2]);
    assert [] + w(left, s[0]).text == w(left, s[0]).text;
  }

  lemma RenderWrapOne(left: int, t: Token)
    ensures Render(WrapOne(left, t)) == if |WrapOne(left, t)| == 2 then EQCRLF + RenderOne(t) else RenderOne(t)
  {
    RenderSingle(t);
    RenderSingle(SoftBreak);
    RenderAppend([SoftBreak], [t]);
    assert [SoftBreak] + [t] == [SoftBreak, t];
  }

  lemma WrapQuoted(length: int, left: int, c: Byte)
    requires length >= 4 && 1 <= left <= length
    ensures Run(WrapStep(length), left, RenderOne(Quoted(c))) ==
            if left <= 3 then Step(length - 3, EQCRLF + RenderOne(Quoted(c))) else Step(left - 3, RenderOne(Quoted(c)))
  {
    HexDigit(c / 16);
    HexDigit(c % 16);
    hide Hex;
    Wrap3(length, left, RenderOne(Quoted(c)));
  }

  lemma WrapToken(length: int, left: int, t: Token)
    requires length >= 4 && 1 <= left <= length && GoodToken(t)
    ensures 1 <= LeftAfter(length, left, t) <= length
    ensures Run(WrapStep(length), left, RenderOne(t)) ==
            Step(LeftAfter(length, left, t), Render(WrapOne(left, t)))
  {
    hide Render, Run, Hex;
    var w := WrapStep(length);
    RenderWrapOne(left, t);
    RunCons(w, left, []);
    match t {
      case Plain(c) =>
        RunSnoc(w, left, [], c);
        assert [] + [c] == [c] && [] + w(left, c).text == w(left, c).text;
      case Quoted(c) =>
        WrapQuoted(length, left, c);
      case HardBreak =>
        RunSnoc(w, left, [], CR);
        RunSnoc(w, left, [CR], LF);
        assert [] + [CR] == [CR] && [CR] + [LF] == CRLF;
      case SoftBreak =>
        Wrap3(length, left, EQCRLF);
    }
  }

  lemma {:induction false} WrapRuns(length: int, left: int, ts: Tokens)
    requires length >= 4 && 1 <= left <= length && GoodTokens(ts)
    ensures 1 <= LeftAtEnd(length, left, ts) <= length
    ensures Run(WrapStep(length), left, Render(ts)) ==
            Step(LeftAtEnd(length, left, ts), Render(WrapTokens(length, left, ts)))
    decreases ts
  {
    if ts != [] {
      var t, left' := ts[0], LeftAfter(length, left, ts[0]);
      WrapToken(length, left, t);
      assert GoodTokens(ts[1..]);
      WrapRuns(length, left', ts[1..]);
      RunAppend(WrapStep(length), left, RenderOne(t), Render(ts[1..]));
      RenderAppend(WrapOne(left, t), WrapTokens(length, left', ts[1..]));
    }
  }

  /** Wrapping changes nothing in what the tokens stand for. */
  lemma {:induction false} WrapMeans(length: int, left: int, ts: Tokens)
    requires GoodTokens(ts)
    ensures Meaning(WrapTokens(length, left, ts)) == Meaning(ts) && GoodTokens(WrapTokens(length, left, ts))
    decreases ts
  {
    if ts != [] {
      var t := ts[0];
      assert GoodToken(t);
      var rest := WrapTokens(length, LeftAfter(length, left, t), ts[1..]);
      WrapMeans(length, LeftAfter(length, left, t), ts[1..]);
      RenderAppend(WrapOne(left, t), rest);
      RenderSingle(t);
      RenderSingle(SoftBreak);
      RenderAppend([SoftBreak], [t]);
      assert [SoftBreak] + [t] == [SoftBreak, t] && [] + MeaningOne(t) == MeaningOne(t);
    }
  }

  /** What the wrapping filter emits for a whole encoded text. */
  function WrappedTokens(length: int, ts: Tokens): Tokens {
    WrapTokens(length, length, ts) + if LeftAtEnd(length, length, ts) < length then [SoftBreak] else []
  }

  lemma Wraps(length: int, ts: Tokens)
    requires length >= 4 && GoodTokens(ts)
    ensures CountWhole(WrapStep(length), WrapFlush(length), length, Render(ts)) == Render(WrappedTokens(length, ts))
    ensures Meaning(WrappedTokens(length, ts)) == Meaning(ts) && GoodTokens(WrappedTokens(length, ts))
  {
    hide Run, Render, Meaning, WrapTokens, LeftAtEnd;
    WrapRuns(length, length, ts);
    WrapMeans(length, length, ts);
    var w := WrapTokens(length, length, ts);
    RenderAppend(w, [SoftBreak]);
    RenderSingle(SoftBreak);
    assert w + [] == w && Render(w) + [] == Render(w) && Meaning(w) + [] == Meaning(w);
  }

  /* ---- Decoder ---- */

  lemma Decode3(s: ByteString)
    requires |s| == 3 && s[0] == EQ
    ensures Run(DecodeStep, [], s) == DecodeStep(s[..2], s[2])
  {
    assert s[..0] == [] && s[..1] == s[..0] + [s[0]] && s[..2] == s[..1] + [s[1]] && s == s[..2] + [s[2]];
    RunSnoc(DecodeStep, [], s[..0], s[0]);
    RunSnoc(DecodeStep, [], s[..1], s[1]);
    RunSnoc(DecodeStep, [], s[..2], s[2]);
    var t := DecodeStep(s[..2], s[2]).text;
    assert [] + t == t;
  }

  lemma DecodeToken(t: Token)
    requires GoodToken(t)
    ensures Run(DecodeStep, [], RenderOne(t)) == Step([], MeaningOne(t))
  {
    match t {
      case Plain(c) =>
        RunSnoc(DecodeStep, [], [], c);
        assert [] + [c] == [c];
      case Quoted(c) =>
        HexDigit(c / 16);
        HexDigit(c % 16);
        Decode3(RenderOne(t));
      case HardBreak =>
        RunSnoc(DecodeStep, [], [], CR);
        RunSnoc(DecodeStep, [], [CR], LF);
        assert [] + [CR] == [CR] && [CR] + [LF] == CRLF;
      case SoftBreak =>
        Decode3(EQCRLF);
    }
  }

  lemma {:induction false} DecodeTokens(ts: Tokens)
    requires GoodTokens(ts)
    ensures Run(DecodeStep, [], Render(ts)) == Step([], Meaning(ts))
  {
    if ts != [] {
      DecodeToken(ts[0]);
      assert GoodTokens(ts[1..]);
      DecodeTokens(ts[1..]);
      RunAppend(DecodeStep, [], RenderOne(ts[0]), Render(ts[1..]));
    }
  }

  lemma {:induction false} DecoderHolds(s: ByteString)
    ensures Held(Run(DecodeStep, [], s).state)
  {
    if s != [] {
      var t := s[..|s| - 1];
      DecoderHolds(t);
      HeldStep(Run(DecodeStep, [], t).state, s[|s| - 1]);
      RunSnoc(DecodeStep, [], t, s[|s| - 1]);
      assert s == t + [s[|s| - 1]];
    }
  }

  lemma DecoderReplays()
    ensures Replays(DecodeStep)
  {
    forall s ensures ReplaysAfter(DecodeStep, s) {
      DecoderHolds(s);
      var a := Run(DecodeStep, [], s).state;
      if a != [] {
        RunSnoc(DecodeStep, [], [], a[0]);
        assert [] + [a[0]] == [a[0]];
        if |a| == 2 {
          RunSnoc(DecodeStep, [], [a[0]], a[1]);
          assert a == [a[0]] + [a[1]];
        } else {
          assert a == [a[0]];
        }
      }
    }
  }

  lemma DecoderFilter(chunks: seq<ByteString>)
    ensures AtomPump(DecodeStep, NoPad, Some([]), chunks) == Run(DecodeStep, [], Concat(chunks)).text
  {
    DecoderReplays();
    AtomPumpIsWhole(DecodeStep, NoPad, [], chunks);
    var text := Run(DecodeStep, [], Concat(chunks)).text;
    assert [] + Concat(chunks) == Concat(chunks) && text + [] == text;
  }

  /* ---- Main results ---- */

  /** Decoding what was encoded and wrapped gives the input back: every byte sequence, both markers, every
      length that leaves room for a quoted byte, and however each of the three filters is fed. */
  lemma RoundTrip(mode: Mode, length: int, input: seq<ByteString>, encoded: seq<ByteString>, wrapped: seq<ByteString>)
    requires length >= 4
    requires Concat(encoded) == AtomPump(EncodeStep(mode), Pad, Some([]), input)
    requires Concat(wrapped) == CountPump(WrapStep(length), WrapFlush(length), length, length, encoded)
    ensures AtomPump(DecodeStep, NoPad, Some([]), encoded) == Concat(input)
    ensures AtomPump(DecodeStep, NoPad, Some([]), wrapped) == Concat(input)
  {
    var ts := AllTokens(mode, Concat(input));
    EncoderFilter(mode, input);
    Encodes(mode, Concat(input));
    CountPumpIsWhole(WrapStep(length), WrapFlush(length), length, length, encoded);
    Wraps(length, ts);
    DecoderFilter(encoded);
    DecoderFilter(wrapped);
    DecodeTokens(ts);
    DecodeTokens(WrappedTokens(length, ts));
  }

  predicate UpperHex(c: Byte) {
    48 <= c <= 57 || 65 <= c <= 70
  }

  /** A line, without its CRLF, of section 6.7 of RFC 2045: printable characters and spaces as they are,
      "=" only before two upper-case hexadecimal digits or at the very end. */
  predicate QpText(s: ByteString) {
    if s == [] then true
    else if s[0] == EQ then
      |s| == 1 || (|s| >= 3 && UpperHex(s[1]) && UpperHex(s[2]) && QpText(s[3..]))
    else (IsSpace(s[0]) || 33 <= s[0] <= 126) && QpText(s[1..])
  }

  function QpLine(length: int): ByteString -> bool {
    (line: ByteString) => |line| <= length && QpText(line) && (line == [] || !IsSpace(line[|line| - 1]))
  }

  /** The tokens of a line, so far. */
  predicate OnLine(ts: Tokens) {
    forall i :: 0 <= i < |ts| ==> GoodToken(ts[i]) && (ts[i].Plain? || ts[i].Quoted?)
  }

  lemma OneText(t: Token, rest: ByteString)
    requires OnLine([t]) && QpText(rest)
    ensures QpText(RenderOne(t) + rest)
  {
    assert [t][0] == t;
    var s := RenderOne(t) + rest;
    if t.Quoted? {
      HexDigit(t.c / 16);
      HexDigit(t.c % 16);
      assert s[3..] == rest;
    } else {
      assert s[1..] == rest;
    }
  }

  lemma {:induction false} LineText(ts: Tokens)
    requires OnLine(ts)
    ensures QpText(Render(ts)) && QpText(Render(ts) + [EQ])
    ensures ts != [] ==> Render(ts) != [] && (IsSpace(Render(ts)[|Render(ts)| - 1]) <==> EndsWithSpace(ts))
  {
    if ts != [] {
      var t, rest := ts[0], Render(ts[1..]);
      LineText(ts[1..]);
      OneLineText(t, rest);
      LastByte(ts);
    }
  }

  lemma OneLineText(t: Token, rest: ByteString)
    requires OnLine([t]) && QpText(rest) && QpText(rest + [EQ])
    ensures QpText(RenderOne(t) + rest) && QpText(RenderOne(t) + rest + [EQ])
  {
    hide RenderOne, QpText;
    OneText(t, rest);
    OneText(t, rest + [EQ]);
    assert RenderOne(t) + rest + [EQ] == RenderOne(t) + (rest + [EQ]);
  }

  lemma LastByte(ts: Tokens)
    requires OnLine(ts) && ts != []
    requires ts[1..] != [] ==> var rest := Render(ts[1..]);
      rest != [] && (IsSpace(rest[|rest| - 1]) <==> EndsWithSpace(ts[1..]))
    ensures var s := Render(ts); s != [] && (IsSpace(s[|s| - 1]) <==> EndsWithSpace(ts))
  {
    hide QpText;
    var t, rest := ts[0], Render(ts[1..]);
    if ts[1..] == [] {
      assert Render(ts) == RenderOne(t) + rest && RenderOne(t) + rest == RenderOne(t);
      if t.Quoted? {
        HexDigit(t.c % 16);
      }
    } else {
      assert ts[1..][|ts| - 2] == ts[|ts| - 1];
    }
  }

  /** One more token on the current line. */
  lemma OneMore(length: int, cur: Tokens, t: Token, s: ByteString)
    requires OnLine(cur) && OnLine([t])
    requires GoodLines(QpLine(length), Render(cur + [t]), s)
    ensures GoodLines(QpLine(length), Render(cur), RenderOne(t) + s)
  {
    hide Hex, Render, GoodLines, QpLine;
    var line := Render(cur);
    RenderAppend(cur, [t]);
    RenderSingle(t);
    assert [t][0] == t;
    if t.Plain? {
      LineGoesOn(QpLine(length), line, t.c, s);
    } else {
      var h, l := Hex(t.c / 16), Hex(t.c % 16);
      HexDigit(t.c / 16);
      HexDigit(t.c % 16);
      assert line + [EQ] + [h] + [l] == line + RenderOne(t);
      LineGoesOn(QpLine(length), line + [EQ] + [h], l, s);
      LineGoesOn(QpLine(length), line + [EQ], h, [l] + s);
      LineGoesOn(QpLine(length), line, EQ, [h] + ([l] + s));
      assert RenderOne(t) + s == [EQ] + ([h] + ([l] + s));
    }
  }

  /** A soft break ends the current line, which had room for its "=". */
  lemma SoftEnd(length: int, cur: Tokens, s: ByteString)
    requires OnLine(cur) && |Render(cur)| < length && GoodLines(QpLine(length), [], s)
    ensures GoodLines(QpLine(length), Render(cur), EQCRLF + s)
  {
    LineText(cur);
    LineEnds(QpLine(length), Render(cur) + [EQ], s);
    LineGoesOn(QpLine(length), Render(cur), EQ, CRLF + s);
    assert EQCRLF + s == [EQ] + (CRLF + s);
  }

  /** A line break of the text ends the current line. */
  lemma HardEnd(length: int, cur: Tokens, s: ByteString)
    requires OnLine(cur) && |Render(cur)| <= length && !EndsWithSpace(cur) && GoodLines(QpLine(length), [], s)
    ensures GoodLines(QpLine(length), Render(cur), CRLF + s)
  {
    LineText(cur);
    LineEnds(QpLine(length), Render(cur), s);
  }

  function Flushed(length: int, left: int, ts: Tokens): ByteString {
    Render(WrapTokens(length, left, ts)) + if LeftAtEnd(length, left, ts) < length then EQCRLF else []
  }

  lemma FlushedCons(length: int, left: int, t: Token, ts: Tokens)
    ensures var rest := RenderOne(t) + Flushed(length, LeftAfter(length, left, t), ts);
      Flushed(length, left, [t] + ts) == if |WrapOne(left, t)| == 2 then EQCRLF + rest else rest
  {
    hide Render, RenderOne, LeftAfter, WrapOne;
    assert ([t] + ts)[0] == t && ([t] + ts)[1..] == ts;
    RenderWrapOne(left, t);
    var rest := WrapTokens(length, LeftAfter(length, left, t), ts);
    RenderAppend(WrapOne(left, t), rest);
    var end := if LeftAtEnd(length, LeftAfter(length, left, t), ts) < length then EQCRLF else [];
    Assoc(RenderOne(t), Render(rest), end);
    Assoc(EQCRLF, RenderOne(t), Render(rest));
    Assoc(EQCRLF, RenderOne(t) + Render(rest), end);
  }

  lemma TailGood(t: Token, ts: Tokens)
    requires GoodTokens([t] + ts) && NoSpaceBreak([t] + ts)
    ensures GoodToken(t) && GoodTokens(ts) && NoSpaceBreak(ts)
    ensures t.Plain? && IsSpace(t.c) && ts != [] ==> !ts[0].HardBreak?
  {
    var all := [t] + ts;
    assert all[0] == t && forall i :: 0 <= i < |ts| ==> ts[i] == all[i + 1];
  }

  /** The wrapped text goes on with good lines, whatever is already on the current one. */
  lemma {:induction false} WrappedGoesOn(length: int, cur: Tokens, ts: Tokens)
    requires length >= 4 && OnLine(cur) && |Render(cur)| < length
    requires GoodTokens(ts) && NoSpaceBreak(ts)
    requires EndsWithSpace(cur) && ts != [] ==> !ts[0].HardBreak?
    ensures GoodLines(QpLine(length), Render(cur), Flushed(length, length - |Render(cur)|, ts))
    decreases |ts|, 0
  {
    hide GoodLines, Flushed, LeftAfter, QpLine, GoodTokens, NoSpaceBreak, Render, RenderOne, OnLine, EndsWithSpace;
    if ts == [] {
      WrappedEnds(length, cur);
    } else {
      EmptyLine();
      var left, t, rest := length - |Render(cur)|, ts[0], ts[1..];
      assert ts == [t] + rest;
      FlushedCons(length, left, t, rest);
      if |WrapOne(left, t)| == 2 {
        WrappedToken(length, [], t, rest);
        FreshLine(length, left, t);
        SoftEnd(length, cur, RenderOne(t) + Flushed(length, LeftAfter(length, left, t), rest));
      } else {
        WrappedToken(length, cur, t, rest);
      }
    }
  }

  /** At the end of the text, the filter closes a line that has something on it. */
  lemma WrappedEnds(length: int, cur: Tokens)
    requires length >= 4 && OnLine(cur) && |Render(cur)| < length
    ensures GoodLines(QpLine(length), Render(cur), Flushed(length, length - |Render(cur)|, []))
  {
    hide QpLine, OnLine, GoodLines, Render;
    EmptyLine();
    assert EQCRLF + [] == EQCRLF && [] + EQCRLF == EQCRLF;
    NoLines(QpLine(length));
    if |Render(cur)| > 0 {
      SoftEnd(length, cur, []);
    }
  }

  /** Behind a soft break there is the room of a whole line. */
  lemma FreshLine(length: int, left: int, t: Token)
    requires length >= 4 && |WrapOne(left, t)| == 2
    ensures LeftAfter(length, left, t) == LeftAfter(length, length, t)
  {
  }

  lemma EmptyLine()
    ensures Render([]) == [] && OnLine([]) && !EndsWithSpace([])
  {
  }

  /** One token that fits, and what follows it. */
  lemma {:induction false} WrappedToken(length: int, cur: Tokens, t: Token, ts: Tokens)
    requires length >= 4 && OnLine(cur) && |Render(cur)| < length
    requires |WrapOne(length - |Render(cur)|, t)| == 1 || cur == []
    requires GoodTokens([t] + ts) && NoSpaceBreak([t] + ts)
    requires EndsWithSpace(cur) ==> !t.HardBreak?
    ensures GoodLines(QpLine(length), Render(cur),
                      RenderOne(t) + Flushed(length, LeftAfter(length, length - |Render(cur)|, t), ts))
    decreases |ts|, 1
  {
    hide GoodLines, Flushed, QpLine, GoodTokens, NoSpaceBreak, GoodToken, WrapTokens, LeftAtEnd;
    TailGood(t, ts);
    if t.HardBreak? {
      WrappedGoesOn(length, [], ts);
      HardEnd(length, cur, Flushed(length, length, ts));
    } else if t.SoftBreak? {
      WrappedGoesOn(length, [], ts);
      SoftEnd(length, cur, Flushed(length, length, ts));
    } else {
      Widened(cur, t);
      WrappedGoesOn(length, cur + [t], ts);
      OneMore(length, cur, t, Flushed(length, length - |Render(cur)| - Width(t), ts));
    }
  }

  lemma Widened(cur: Tokens, t: Token)
    requires OnLine(cur) && GoodToken(t) && (t.Plain? || t.Quoted?)
    ensures OnLine(cur + [t]) && OnLine([t]) && |Render(cur + [t])| == |Render(cur)| + Width(t)
    ensures EndsWithSpace(cur + [t]) <==> t.Plain? && IsSpace(t.c)
  {
    RenderAppend(cur, [t]);
    RenderSingle(t);
  }

  /** Encoded and wrapped text is CRLF-terminated lines of at most `length` bytes, none of which splits a
      quoted byte, has a bare "=", or ends with a space; both markers, and any feeding of both filters. */
  lemma WellFormed(mode: Mode, length: int, input: seq<ByteString>, encoded: seq<ByteString>)
    requires length >= 4
    requires Concat(encoded) == AtomPump(EncodeStep(mode), Pad, Some([]), input)
    ensures GoodLines(QpLine(length), [], CountPump(WrapStep(length), WrapFlush(length), length, length, encoded))
  {
    hide GoodLines, QpLine, Render, GoodTokens, NoSpaceBreak, Meaning, Run, AllTokens;
    var ts := AllTokens(mode, Concat(input));
    EncoderFilter(mode, input);
    Encodes(mode, Concat(input));
    CountPumpIsWhole(WrapStep(length), WrapFlush(length), length, length, encoded);
    WrapRuns(length, length, ts);
    EmptyLine();
    WrappedGoesOn(length, [], ts);
  }
}
