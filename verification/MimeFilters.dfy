/** The MIME filters under LTN12: filter.cycle over the low-level filters of mime.c (ltn12.lua:29-36, mime.lua:36-86)
    keeps the filter protocol, and chains of them compose. */
module MimeFilters {
  import opened Bytes
  import opened Streams
  import opened Ltn12
  import opened Ltn12Pump
  import B64 = MimeBase64
  import Qp = MimeQp
  import QpTheorems = MimeQpTheorems
  import MimeText

  /** What filter.cycle keeps between two calls: undecided bytes, or a number. */
  datatype Context = Atom(bytes: Option<ByteString>) | Number(n: int)

  /* ---- Filters that keep undecided bytes ---- */

  function AtomSpec(m: AtomMachine, pad: ByteString -> ByteString): Spec {
    Spec((s: ByteString) => Run(m, [], s).text, (s: ByteString) => Whole(m, pad, s))
  }

  /** The context of filter.cycle when the filter stands at p. */
  predicate AtomAt(m: AtomMachine, pad: ByteString -> ByteString, p: Progress, ctx: Option<ByteString>) {
    if p.closed then ctx == None && p.produced == Whole(m, pad, p.consumed)
    else ctx == Some(Run(m, [], p.consumed).state) && p.produced == Run(m, [], p.consumed).text
  }

  lemma AtomOwes(m: AtomMachine, pad: ByteString -> ByteString, s: ByteString)
    ensures AtomSpec(m, pad).mid(s) == Run(m, [], s).text && AtomSpec(m, pad).full(s) == Whole(m, pad, s)
  {
    hide Run, Whole, AtomSpec;
    AtomMid(m, pad, s);
    AtomFull(m, pad, s);
  }

  lemma AtomMid(m: AtomMachine, pad: ByteString -> ByteString, s: ByteString)
    ensures AtomSpec(m, pad).mid(s) == Run(m, [], s).text
  {
    hide Run, Whole;
  }

  lemma AtomFull(m: AtomMachine, pad: ByteString -> ByteString, s: ByteString)
    ensures AtomSpec(m, pad).full(s) == Whole(m, pad, s)
  {
    hide Run, Whole;
  }

  lemma AtomMonotone(m: AtomMachine, pad: ByteString -> ByteString)
    ensures Monotone(AtomSpec(m, pad))
  {
    hide Run, Whole, AtomSpec;
    var f := AtomSpec(m, pad);
    forall a, b | a <= b ensures f.mid(a) <= f.mid(b) {
      AtomOwes(m, pad, a);
      AtomOwes(m, pad, b);
      TextGrows(m, [], a, b);
    }
    forall a ensures f.mid(a) <= f.full(a) {
      AtomOwes(m, pad, a);
      WholeGrows(m, pad, a);
    }
  }

  lemma TextGrows<S>(m: (S, Byte) -> Step<S>, start: S, a: ByteString, b: ByteString)
    requires a <= b
    ensures Run(m, start, a).text <= Run(m, start, b).text
  {
    hide Run;
    RunAppend(m, start, a, b[|a|..]);
    assert b == a + b[|a|..];
  }

  lemma WholeGrows(m: AtomMachine, pad: ByteString -> ByteString, a: ByteString)
    ensures Run(m, [], a).text <= Whole(m, pad, a)
  {
    hide Run;
  }

  /** Each call of the cycled filter that the protocol allows is answered as the protocol demands. */
  lemma AtomCycle(m: AtomMachine, pad: ByteString -> ByteString, p: Progress, ctx: Option<ByteString>,
                  chunk: Option<ByteString>)
    requires Replays(m) && PadsPlainly(m, pad)
    requires AtomAt(m, pad, p, ctx) && MayCall(p, chunk)
    ensures var c := AtomCall(m, pad, ctx, chunk);
      && Answers(AtomSpec(m, pad), p, chunk, Next(p, chunk, c.out), c.out)
      && AtomAt(m, pad, Next(p, chunk, c.out), c.ctx)
  {
    hide Run, Replays, PadsPlainly, ReplaysAfter, PadAfter, AtomSpec;
    assert p.produced + [] == p.produced && p.consumed + [] == p.consumed;
    AtomOwes(m, pad, p.consumed);
    AtomOwes(m, pad, p.consumed + Text(chunk));
    if p.closed {
    } else if chunk.Some? {
      assert ReplaysAfter(m, p.consumed) by { Instance(m, pad, p.consumed); }
      CallWithChunk(m, pad, p.consumed, chunk.value);
    } else {
      Instance(m, pad, p.consumed);
      CallWithout(m, pad, p.consumed);
    }
  }

  lemma Instance(m: AtomMachine, pad: ByteString -> ByteString, s: ByteString)
    requires Replays(m) && PadsPlainly(m, pad)
    ensures ReplaysAfter(m, s)
    ensures PadAfter(m, pad, s) == pad(Run(m, [], s).state)
    ensures PadAfter(m, pad, s) == [] || PadAfter(m, pad, s)[0] != 0
  {
    hide Run;
  }

  /* ---- Filters that keep a number ---- */

  function CountSpec(m: (int, Byte) -> Step<int>, flush: int -> Option<ByteString>, start: int): Spec {
    Spec((s: ByteString) => Run(m, start, s).text, (s: ByteString) => CountWhole(m, flush, start, s))
  }

  predicate CountAt(m: (int, Byte) -> Step<int>, flush: int -> Option<ByteString>, start: int, p: Progress, ctx: int) {
    if p.closed then ctx == start && p.produced == CountWhole(m, flush, start, p.consumed)
    else Run(m, start, p.consumed) == Step(ctx, p.produced)
  }

  /** The flush gives something or nil, and nothing when there was no input. */
  ghost predicate FlushesOnce(flush: int -> Option<ByteString>, start: int) {
    flush(start) == None && forall ctx {:trigger flush(ctx)} :: flush(ctx) != Some([])
  }

  lemma CountMonotone(m: (int, Byte) -> Step<int>, flush: int -> Option<ByteString>, start: int)
    ensures Monotone(CountSpec(m, flush, start))
  {
    var f := CountSpec(m, flush, start);
    forall a, b | a <= b ensures f.mid(a) <= f.mid(b) {
      TextGrows(m, start, a, b);
    }
  }

  lemma CountCycle(m: (int, Byte) -> Step<int>, flush: int -> Option<ByteString>, start: int, p: Progress, ctx: int,
                   chunk: Option<ByteString>)
    requires FlushesOnce(flush, start)
    requires CountAt(m, flush, start, p, ctx) && MayCall(p, chunk)
    ensures var c := CountCall(m, flush, start, ctx, chunk);
      && Answers(CountSpec(m, flush, start), p, chunk, Next(p, chunk, c.out), c.out)
      && CountAt(m, flush, start, Next(p, chunk, c.out), c.ctx)
  {
    assert p.produced + [] == p.produced && p.consumed + [] == p.consumed;
    if chunk.Some? {
      RunAppend(m, start, p.consumed, chunk.value);
    }
  }

  /* ---- Both kinds, as filters under filter.cycle ---- */

  function AtomLow(m: AtomMachine, pad: ByteString -> ByteString): (Context, Option<ByteString>) -> Call<Context> {
    (ctx: Context, chunk) =>
      if ctx.Atom? then var c := AtomCall(m, pad, ctx.bytes, chunk); Call(c.out, Atom(c.ctx)) else Call(None, ctx)
  }

  function AtomInv(m: AtomMachine, pad: ByteString -> ByteString): (Progress, Context) -> bool {
    (p, ctx: Context) => ctx.Atom? && AtomAt(m, pad, p, ctx.bytes)
  }

  function CountLow(m: (int, Byte) -> Step<int>, flush: int -> Option<ByteString>, start: int):
    (Context, Option<ByteString>) -> Call<Context>
  {
    (ctx: Context, chunk) =>
      if ctx.Number? then var c := CountCall(m, flush, start, ctx.n, chunk); Call(c.out, Number(c.ctx)) else Call(None, ctx)
  }

  function CountInv(m: (int, Byte) -> Step<int>, flush: int -> Option<ByteString>, start: int): (Progress, Context) -> bool {
    (p, ctx: Context) => ctx.Number? && CountAt(m, flush, start, p, ctx.n)
  }

  lemma AtomKeeps(m: AtomMachine, pad: ByteString -> ByteString)
    requires Replays(m) && PadsPlainly(m, pad)
    ensures Keeps(AtomSpec(m, pad), AtomLow(m, pad), AtomInv(m, pad)) && AtomInv(m, pad)(UNUSED, Atom(Some([])))
  {
    hide AtomCall, AtomAt, AtomSpec, Answers, Replays, PadsPlainly;
    assert AtomAt(m, pad, UNUSED, Some([])) by { AtomStarts(m, pad); }
    forall p, ctx, chunk ensures KeepsAt(AtomSpec(m, pad), AtomLow(m, pad), AtomInv(m, pad), p, ctx, chunk) {
      if AtomInv(m, pad)(p, ctx) && MayCall(p, chunk) {
        AtomCycle(m, pad, p, ctx.bytes, chunk);
      }
    }
  }

  lemma AtomStarts(m: AtomMachine, pad: ByteString -> ByteString)
    ensures AtomAt(m, pad, UNUSED, Some([])) && AtomSpec(m, pad).mid([]) == []
  {
  }

  lemma CountKeeps(m: (int, Byte) -> Step<int>, flush: int -> Option<ByteString>, start: int)
    requires FlushesOnce(flush, start)
    ensures Keeps(CountSpec(m, flush, start), CountLow(m, flush, start), CountInv(m, flush, start))
    ensures CountInv(m, flush, start)(UNUSED, Number(start)) && CountSpec(m, flush, start).mid([]) == []
  {
    hide CountCall, CountAt, CountSpec, Answers, FlushesOnce;
    assert CountAt(m, flush, start, UNUSED, start) && CountSpec(m, flush, start).mid([]) == [] by { CountStarts(m, flush, start); }
    forall p, ctx, chunk
      ensures KeepsAt(CountSpec(m, flush, start), CountLow(m, flush, start), CountInv(m, flush, start), p, ctx, chunk)
    {
      if CountInv(m, flush, start)(p, ctx) && MayCall(p, chunk) {
        CountCycle(m, flush, start, p, ctx.n, chunk);
      }
    }
  }

  lemma CountStarts(m: (int, Byte) -> Step<int>, flush: int -> Option<ByteString>, start: int)
    ensures CountAt(m, flush, start, UNUSED, start) && CountSpec(m, flush, start).mid([]) == []
  {
  }

  /** A new cycled filter with undecided bytes, none so far. */
  method NewAtom(m: AtomMachine, pad: ByteString -> ByteString) returns (c: Cycle<Context>)
    requires Replays(m) && PadsPlainly(m, pad)
    ensures fresh(c) && Ready(c, AtomSpec(m, pad))
  {
    hide Keeps, AtomSpec, Monotone;
    AtomKeeps(m, pad);
    AtomStarts(m, pad);
    AtomMonotone(m, pad);
    c := new Cycle(AtomLow(m, pad), Atom(Some([])), AtomSpec(m, pad), AtomInv(m, pad));
  }

  method NewCount(m: (int, Byte) -> Step<int>, flush: int -> Option<ByteString>, start: int) returns (c: Cycle<Context>)
    requires FlushesOnce(flush, start)
    ensures fresh(c) && Ready(c, CountSpec(m, flush, start))
  {
    hide Keeps, CountSpec, Monotone;
    CountKeeps(m, flush, start);
    CountMonotone(m, flush, start);
    c := new Cycle(CountLow(m, flush, start), Number(start), CountSpec(m, flush, start), CountInv(m, flush, start));
  }

  /** A new filter for f that can go into a chain. */
  ghost predicate Ready(c: Cycle<Context>, f: Spec)
    reads c
  {
    c.Valid() && c.f == f && c.at == UNUSED && Monotone(f) && f.mid([]) == []
  }

  /* ---- The filters of mime.lua ---- */

  function Base64(): Spec { AtomSpec(B64.EncodeStep, B64.Pad) }

  function Unbase64(): Spec { AtomSpec(B64.DecodeStep, B64.NoPad) }

  function WrapBase64(length: int): Spec { CountSpec(B64.WrapStep(length), B64.WrapFlush(length), length) }

  function QuotedPrintable(mode: Qp.Mode): Spec { AtomSpec(Qp.EncodeStep(mode), Qp.Pad) }

  function UnquotedPrintable(): Spec { AtomSpec(Qp.DecodeStep, Qp.NoPad) }

  function WrapQp(length: int): Spec { CountSpec(Qp.WrapStep(length), Qp.WrapFlush(length), length) }

  function Stuff(): Spec { CountSpec(MimeText.DotStep, MimeText.DotFlush, 2) }

  function Normalize(marker: ByteString): Spec { CountSpec(MimeText.EolStep(marker), MimeText.EolFlush, 0) }

  /** What the cycle lemmas ask of the machines holds for each of them, whatever their parameters. */
  lemma AllKeepTheProtocol(mode: Qp.Mode, length: int)
    ensures Replays(B64.EncodeStep) && PadsPlainly(B64.EncodeStep, B64.Pad)
    ensures Replays(B64.DecodeStep) && PadsPlainly(B64.DecodeStep, B64.NoPad)
    ensures Replays(Qp.EncodeStep(mode)) && PadsPlainly(Qp.EncodeStep(mode), Qp.Pad)
    ensures Replays(Qp.DecodeStep) && PadsPlainly(Qp.DecodeStep, Qp.NoPad)
    ensures FlushesOnce(B64.WrapFlush(length), length) && FlushesOnce(Qp.WrapFlush(length), length)
    ensures FlushesOnce(MimeText.DotFlush, 2) && FlushesOnce(MimeText.EolFlush, 0)
  {
    B64.EncoderReplays();
    B64.DecoderReplays();
    QpTheorems.EncoderReplays(mode);
    QpTheorems.DecoderReplays();
    forall s ensures PadAfter(Qp.EncodeStep(mode), Qp.Pad, s) == [] || PadAfter(Qp.EncodeStep(mode), Qp.Pad, s)[0] != 0 {
      QpTheorems.PadPlain(Run(Qp.EncodeStep(mode), [], s).state);
    }
  }

  lemma ThreeInARow(a: Spec, b: Spec, c: Spec, s: ByteString)
    ensures Composed([a, b, c]).full(s) == c.full(b.full(a.full(s)))
  {
    var fs := [a, b, c];
    assert Through(fs, true, s, 1) == a.full(Through(fs, true, s, 0));
    assert Through(fs, true, s, 2) == b.full(Through(fs, true, s, 1));
  }

  /** A chain that encodes, wraps at any length and decodes gives back what it is given. */
  lemma Base64Chain(length: int, s: ByteString)
    ensures Composed([Base64(), WrapBase64(length), Unbase64()]).full(s) == s
  {
    ThreeInARow(Base64(), WrapBase64(length), Unbase64(), s);
    B64.EncodeAtom(s);
    var e := B64.Encoded(s);
    var w := B64.Wrapped(length, e);
    B64.WrappedKeepsText(length, e);
    B64.EncodedHasNoBreaks(s);
    B64.NothingToStrip(e);
    B64.DecodeStripped([], w);
    B64.DecodeEncoded(s);
  }

  /** The same for quoted-printable, where the lines must have room for one quoted byte and the soft break. */
  lemma QpChain(mode: Qp.Mode, length: int, s: ByteString)
    requires length >= 4
    ensures Composed([QuotedPrintable(mode), WrapQp(length), UnquotedPrintable()]).full(s) == s
  {
    ThreeInARow(QuotedPrintable(mode), WrapQp(length), UnquotedPrintable(), s);
    var ts := QpTheorems.AllTokens(mode, s);
    QpTheorems.Encodes(mode, s);
    QpTheorems.Wraps(length, ts);
    QpTheorems.DecodeTokens(QpTheorems.WrappedTokens(length, ts));
  }

  /** With less room the wrapper breaks "=C8" after its first byte, or its second, and the decoder gives up on it. */
  lemma NarrowWrap(length: int) returns (x: ByteString, y: ByteString)
    requires length <= 3
    ensures CountWhole(Qp.WrapStep(length), Qp.WrapFlush(length), length, [61, 67, 56]) == Qp.EQCRLF + (x + y)
    ensures |x| == 3 && x[0] == Qp.EQ && Run(Qp.DecodeStep, [], x) == Step([], x)
  {
    hide Run;
    var s: ByteString := [61, 67, 56];
    QpTheorems.Wrap3(length, length, s);
    var r := Run(Qp.WrapStep(length), length, s);
    var end := Streams.Text(Qp.WrapFlush(length)(r.state));
    assert end == Qp.EQCRLF;
    if length == 3 {
      x, y := [61, 67, 61], [13, 10, 56] + end;
      assert r.text + end == Qp.EQCRLF + (x + y);
    } else {
      x, y := [61, 61, 13], [10, 67] + Qp.EQCRLF + [56] + end;
      assert r.text + end == Qp.EQCRLF + (x + y);
    }
    QpTheorems.Decode3(x);
    assert x[..2] + [x[2]] == x && x[..3] == x;
  }

  lemma EncodedByte(mode: Qp.Mode)
    ensures QuotedPrintable(mode).full([200]) == [61, 67, 56]
  {
    var m := Qp.EncodeStep(mode);
    var t := Qp.Quoted(200);
    RunSnoc(m, [], [], 200);
    assert [] + [200] == [200];
    assert Qp.Decide(mode, [200]) == Qp.After([t], Qp.Decide(mode, []));
    assert [t] + [] == [t];
    Qp.RenderSingle(t);
    assert Run(m, [], [200]) == Step([], [61, 67, 56]);
    AtomFull(m, Qp.Pad, [200]);
    assert [61, 67, 56] + [] == [61, 67, 56];
  }

  lemma WrapFull(length: int, s: ByteString)
    ensures WrapQp(length).full(s) == CountWhole(Qp.WrapStep(length), Qp.WrapFlush(length), length, s)
  {
    hide CountWhole;
  }

  lemma UnquotedFull(s: ByteString)
    ensures UnquotedPrintable().full(s) == Run(Qp.DecodeStep, [], s).text
  {
    hide Run, AtomSpec;
    AtomFull(Qp.DecodeStep, Qp.NoPad, s);
    var t := Run(Qp.DecodeStep, [], s).text;
    assert t + [] == t;
  }

  lemma BrokenByte(x: ByteString, y: ByteString)
    requires |x| == 3 && x[0] == Qp.EQ && Run(Qp.DecodeStep, [], x) == Step([], x)
    ensures UnquotedPrintable().full(Qp.EQCRLF + (x + y)) != [200]
  {
    hide Run, UnquotedPrintable;
    QpTheorems.Decode3(Qp.EQCRLF);
    RunAppend(Qp.DecodeStep, [], Qp.EQCRLF, x + y);
    RunAppend(Qp.DecodeStep, [], x, y);
    UnquotedFull(Qp.EQCRLF + (x + y));
    var t := Run(Qp.DecodeStep, [], y).text;
    assert [] + (x + t) == x + t && (x + t)[0] == Qp.EQ;
  }

  lemma QpChainBroken(mode: Qp.Mode, length: int)
    requires length <= 3
    ensures Composed([QuotedPrintable(mode), WrapQp(length), UnquotedPrintable()]).full([200]) != [200]
  {
    hide Composed, QuotedPrintable, WrapQp, UnquotedPrintable, CountWhole, Run;
    ThreeInARow(QuotedPrintable(mode), WrapQp(length), UnquotedPrintable(), [200]);
    EncodedByte(mode);
    WrapFull(length, [61, 67, 56]);
    var x, y := NarrowWrap(length);
    BrokenByte(x, y);
  }

  /** The quoted-printable chain gives every input back exactly when the lines have room for four bytes. */
  lemma QpChainIff(mode: Qp.Mode, length: int)
    ensures (forall s :: Composed([QuotedPrintable(mode), WrapQp(length), UnquotedPrintable()]).full(s) == s)
            <==> length >= 4
  {
    hide Composed, QuotedPrintable, WrapQp, UnquotedPrintable;
    if length >= 4 {
      forall s ensures Composed([QuotedPrintable(mode), WrapQp(length), UnquotedPrintable()]).full(s) == s {
        QpChain(mode, length, s);
      }
    } else {
      QpChainBroken(mode, length);
    }
  }

  /* ---- The filters at work ---- */

  ghost predicate AllReady(filters: seq<Cycle<Context>>, fs: seq<Spec>)
    reads filters
  {
    && fs != [] && |filters| == |fs|
    && (forall i :: 0 <= i < |fs| ==> Ready(filters[i], fs[i]))
    && (forall i, j :: 0 <= i < j < |fs| ==> filters[i] != filters[j])
  }

  method NewChain(filters: seq<Cycle<Context>>, ghost fs: seq<Spec>) returns (chain: Chain<Context>)
    requires AllReady(filters, fs)
    ensures chain.Valid() && fresh(chain) && chain.filters == filters && chain.fs == fs && chain.total == UNUSED
  {
    hide Cycle.Valid, Monotone;
    chain := new Chain(filters, fs);
  }

  /** All of chunks through the filters of a at the source, and of b at the sink. */
  method PumpBetween(chunks: seq<ByteString>, a: seq<Cycle<Context>>, b: seq<Cycle<Context>>, ghost fs: seq<Spec>,
                     ghost gs: seq<Spec>)
    returns (err: Option<string>, got: ByteString)
    requires AllReady(a, fs) && AllReady(b, gs)
    requires forall i, j :: 0 <= i < |a| && 0 <= j < |b| ==> a[i] != b[j]
    modifies a, b
    ensures err == None && got == Composed(fs + gs).full(Concat(chunks))
  {
    hide Composed, Chain.Valid, Ready;
    var first := NewChain(a, fs);
    var second := NewChain(b, gs);
    var src := new Source(chunks, None);
    var snk := new Sink(None, None);
    var from := new SourceChain(src, first);
    var to := new SinkChain(second, snk);
    err := PumpAll(from, to);
    SplitAnywhere(fs, gs, Concat(chunks));
    got := snk.got;
  }

  /** Any chunks, encoded and wrapped on their way out of the source and decoded on their way into the sink, arrive as
      they were. */
  method Base64ThereAndBack(chunks: seq<ByteString>, length: int) returns (err: Option<string>, got: ByteString)
    ensures err == None && got == Concat(chunks)
  {
    hide Composed, AtomSpec, CountSpec;
    AllKeepTheProtocol(Qp.TextMode, length);
    var encode := NewAtom(B64.EncodeStep, B64.Pad);
    var wrap := NewCount(B64.WrapStep(length), B64.WrapFlush(length), length);
    var decode := NewAtom(B64.DecodeStep, B64.NoPad);
    err, got := PumpBetween(chunks, [encode, wrap], [decode], [Base64(), WrapBase64(length)], [Unbase64()]);
    assert [Base64(), WrapBase64(length)] + [Unbase64()] == [Base64(), WrapBase64(length), Unbase64()];
    Base64Chain(length, Concat(chunks));
  }

  method QpThereAndBack(chunks: seq<ByteString>, mode: Qp.Mode, length: int) returns (err: Option<string>, got: ByteString)
    requires length >= 4
    ensures err == None && got == Concat(chunks)
  {
    hide Composed, AtomSpec, CountSpec;
    AllKeepTheProtocol(mode, length);
    var encode := NewAtom(Qp.EncodeStep(mode), Qp.Pad);
    var wrap := NewCount(Qp.WrapStep(length), Qp.WrapFlush(length), length);
    var decode := NewAtom(Qp.DecodeStep, Qp.NoPad);
    err, got := PumpBetween(chunks, [encode, wrap], [decode], [QuotedPrintable(mode), WrapQp(length)], [UnquotedPrintable()]);
    assert [QuotedPrintable(mode), WrapQp(length)] + [UnquotedPrintable()]
        == [QuotedPrintable(mode), WrapQp(length), UnquotedPrintable()];
    QpChain(mode, length, Concat(chunks));
  }

  /** Text with line breaks of any of the four conventions, normalised on its way out of the source and stuffed on its
      way into the sink, is the stuffed form of the same lines, each ended with CRLF. */
  method StuffedMail(chunks: seq<ByteString>, ghost eol: ByteString, ghost lines: seq<ByteString>)
    returns (err: Option<string>, got: ByteString)
    requires MimeText.Convention(eol) && (forall i :: 0 <= i < |lines| ==> MimeText.NoBreaks(lines[i]))
    requires Concat(chunks) == MimeText.Joined(lines, eol)
    ensures err == None && got == MimeText.Stuffed(MimeText.Joined(lines, CRLF))
    ensures MimeText.Unstuffed(got, 0) == MimeText.Joined(lines, CRLF)
  {
    hide Composed, CountSpec, MimeText.Joined;
    AllKeepTheProtocol(Qp.TextMode, 76);
    var normalize := NewCount(MimeText.EolStep(CRLF), MimeText.EolFlush, 0);
    var stuff := NewCount(MimeText.DotStep, MimeText.DotFlush, 2);
    err, got := PumpBetween(chunks, [normalize], [stuff], [Normalize(CRLF)], [Stuff()]);
    StuffedText(eol, lines);
    UnstuffedText(MimeText.Joined(lines, CRLF));
  }

  lemma TwoInARow(a: Spec, b: Spec, s: ByteString)
    ensures Composed([a] + [b]).full(s) == b.full(a.full(s))
  {
    var fs := [a] + [b];
    assert Through(fs, true, s, 1) == a.full(Through(fs, true, s, 0));
  }

  lemma CountFull(m: (int, Byte) -> Step<int>, flush: int -> Option<ByteString>, start: int, s: ByteString)
    requires flush(Run(m, start, s).state) == None
    ensures CountSpec(m, flush, start).full(s) == Run(m, start, s).text
  {
    hide Run;
    assert Run(m, start, s).text + [] == Run(m, start, s).text;
  }

  lemma StuffedText(eol: ByteString, lines: seq<ByteString>)
    requires MimeText.Convention(eol) && (forall i :: 0 <= i < |lines| ==> MimeText.NoBreaks(lines[i]))
    ensures Composed([Normalize(CRLF)] + [Stuff()]).full(MimeText.Joined(lines, eol)) ==
            MimeText.Stuffed(MimeText.Joined(lines, CRLF))
  {
    hide MimeText.Joined, Run, Composed, CountSpec;
    var s, text := MimeText.Joined(lines, eol), MimeText.Joined(lines, CRLF);
    TwoInARow(Normalize(CRLF), Stuff(), s);
    MimeText.NormalisesFrom(CRLF, eol, 0, lines);
    CountFull(MimeText.EolStep(CRLF), MimeText.EolFlush, 0, s);
    CountFull(MimeText.DotStep, MimeText.DotFlush, 2, text);
  }

  lemma UnstuffedText(text: ByteString)
    ensures MimeText.Unstuffed(MimeText.Stuffed(text), 0) == text
  {
    assert Concat([text]) == text by { assert text + [] == text; }
    MimeText.Transparent([text]);
  }
}
