/** Byte-at-a-time machines, and how mime.c re-enters them chunk after chunk. */
module Streams {
  import opened Bytes

  /** The state after some bytes, and the text emitted for them. */
  datatype Step<S> = Step(state: S, text: ByteString)

  /** Feeding the bytes of s one by one to the machine m. */
  function Run<S>(m: (S, Byte) -> Step<S>, st: S, s: ByteString): Step<S> {
    if s == [] then Step(st, [])
    else
      var a := m(st, s[0]);
      var b := Run(m, a.state, s[1..]);
      Step(b.state, a.text + b.text)
  }

  lemma {:induction false} RunAppend<S>(m: (S, Byte) -> Step<S>, st: S, a: ByteString, b: ByteString)
    ensures var x := Run(m, st, a);
      var y := Run(m, x.state, b);
      Run(m, st, a + b) == Step(y.state, x.text + y.text)
  {
    if a == [] {
      assert a + b == b;
    } else {
      assert (a + b)[0] == a[0] && (a + b)[1..] == a[1..] + b;
      RunAppend(m, m(st, a[0]).state, a[1..], b);
    }
  }

  /** The first step of a run. */
  lemma RunCons<S>(m: (S, Byte) -> Step<S>, st: S, s: ByteString)
    ensures s == [] ==> Run(m, st, s) == Step(st, [])
    ensures s != [] ==>
      var a := m(st, s[0]);
      var b := Run(m, a.state, s[1..]);
      Run(m, st, s) == Step(b.state, a.text + b.text)
  {
  }

  /** One more byte at the end. */
  lemma RunSnoc<S>(m: (S, Byte) -> Step<S>, st: S, s: ByteString, c: Byte)
    ensures var x := Run(m, st, s);
      var y := m(x.state, c);
      Run(m, st, s + [c]) == Step(y.state, x.text + y.text)
  {
    RunAppend(m, st, s, [c]);
    var x := Run(m, st, s);
    var y := m(x.state, c);
    assert Run(m, x.state, [c]) == Step(y.state, y.text + []);
  }

  /* Low-level filters of the first kind keep their undecided bytes in the context. Each call starts from
     an empty atom, feeds the context again, and then the chunk; without a chunk it pads what is left.
     A result that starts with a NUL byte, or is empty, is turned into nil when padding. */

  datatype Call<C> = Call(out: Option<ByteString>, ctx: C)

  type AtomMachine = (ByteString, Byte) -> Step<ByteString>

  function AtomCall(m: AtomMachine, pad: ByteString -> ByteString, ctx: Option<ByteString>, chunk: Option<ByteString>):
    Call<Option<ByteString>>
  {
    if ctx.None? then Call(None, None) else
    var a := Run(m, [], ctx.value);
    if chunk.None? then
      var t := a.text + pad(a.state);
      Call(if t == [] || t[0] == 0 then None else Some(t), None)
    else
      var b := Run(m, a.state, chunk.value);
      Call(Some(a.text + b.text), Some(b.state))
  }

  /** Feeding the undecided bytes left by any input again gives them back, and no text. */
  ghost predicate Replays(m: AtomMachine) {
    forall s {:trigger ReplaysAfter(m, s)} :: ReplaysAfter(m, s)
  }

  predicate ReplaysAfter(m: AtomMachine, s: ByteString) {
    Run(m, [], Run(m, [], s).state) == Step(Run(m, [], s).state, [])
  }

  /** No padding is taken for nil by mistake. */
  ghost predicate PadsPlainly(m: AtomMachine, pad: ByteString -> ByteString) {
    forall s {:trigger PadAfter(m, pad, s)} :: PadAfter(m, pad, s) == [] || PadAfter(m, pad, s)[0] != 0
  }

  function PadAfter(m: AtomMachine, pad: ByteString -> ByteString, s: ByteString): ByteString {
    pad(Run(m, [], s).state)
  }

  /** The text emitted for a whole input: what the machine decided, then the padding. */
  function Whole(m: AtomMachine, pad: ByteString -> ByteString, s: ByteString): ByteString {
    Run(m, [], s).text + pad(Run(m, [], s).state)
  }

  function Text(o: Option<ByteString>): ByteString {
    if o.Some? then o.value else []
  }

  /** filter.cycle over the chunks, then nil: the texts returned, concatenated. */
  function AtomPump(m: AtomMachine, pad: ByteString -> ByteString, ctx: Option<ByteString>, chunks: seq<ByteString>):
    ByteString
    decreases chunks
  {
    if chunks == [] then Text(AtomCall(m, pad, ctx, None).out)
    else
      var c := AtomCall(m, pad, ctx, Some(chunks[0]));
      Text(c.out) + AtomPump(m, pad, c.ctx, chunks[1..])
  }

  lemma CallWithChunk(m: AtomMachine, pad: ByteString -> ByteString, seen: ByteString, chunk: ByteString)
    requires ReplaysAfter(m, seen)
    ensures var atom := Run(m, [], seen).state;
      AtomCall(m, pad, Some(atom), Some(chunk)) ==
      Call(Some(Run(m, atom, chunk).text), Some(Run(m, [], seen + chunk).state))
    ensures Run(m, [], seen + chunk).text == Run(m, [], seen).text + Run(m, Run(m, [], seen).state, chunk).text
  {
    RunAppend(m, [], seen, chunk);
    var t := Run(m, Run(m, [], seen).state, chunk).text;
    assert [] + t == t;
  }

  lemma CallWithout(m: AtomMachine, pad: ByteString -> ByteString, seen: ByteString)
    requires ReplaysAfter(m, seen)
    requires PadAfter(m, pad, seen) == [] || PadAfter(m, pad, seen)[0] != 0
    ensures var p := PadAfter(m, pad, seen);
      AtomCall(m, pad, Some(Run(m, [], seen).state), None) == Call(if p == [] then None else Some(p), None)
  {
    var p := PadAfter(m, pad, seen);
    assert [] + p == p;
  }

  /** How the input is cut into chunks does not matter. */
  lemma {:induction false} AtomPumpIsWhole(m: AtomMachine, pad: ByteString -> ByteString, seen: ByteString,
                                           chunks: seq<ByteString>)
    requires Replays(m) && PadsPlainly(m, pad)
    ensures Run(m, [], seen).text + AtomPump(m, pad, Some(Run(m, [], seen).state), chunks) ==
            Whole(m, pad, seen + Concat(chunks))
    decreases chunks
  {
    hide Run, AtomCall;
    assert ReplaysAfter(m, seen);
    if chunks == [] {
      CallWithout(m, pad, seen);
      assert seen + Concat(chunks) == seen;
    } else {
      CallWithChunk(m, pad, seen, chunks[0]);
      AtomPumpIsWhole(m, pad, seen + chunks[0], chunks[1..]);
      assert seen + Concat(chunks) == seen + chunks[0] + Concat(chunks[1..]);
    }
  }

  /* Low-level filters of the second kind keep a number in the context: nothing is held back. */

  function CountCall(m: (int, Byte) -> Step<int>, flush: int -> Option<ByteString>, start: int,
                     ctx: int, chunk: Option<ByteString>): Call<int>
  {
    if chunk.None? then Call(flush(ctx), start)
    else
      var a := Run(m, ctx, chunk.value);
      Call(Some(a.text), a.state)
  }

  function CountWhole(m: (int, Byte) -> Step<int>, flush: int -> Option<ByteString>, ctx: int, s: ByteString): ByteString {
    Run(m, ctx, s).text + Text(flush(Run(m, ctx, s).state))
  }

  function CountPump(m: (int, Byte) -> Step<int>, flush: int -> Option<ByteString>, start: int,
                     ctx: int, chunks: seq<ByteString>): ByteString
    decreases chunks
  {
    if chunks == [] then Text(CountCall(m, flush, start, ctx, None).out)
    else
      var c := CountCall(m, flush, start, ctx, Some(chunks[0]));
      Text(c.out) + CountPump(m, flush, start, c.ctx, chunks[1..])
  }

  lemma {:induction false} CountPumpIsWhole(m: (int, Byte) -> Step<int>, flush: int -> Option<ByteString>, start: int,
                                            ctx: int, chunks: seq<ByteString>)
    ensures CountPump(m, flush, start, ctx, chunks) == CountWhole(m, flush, ctx, Concat(chunks))
    decreases chunks
  {
    if chunks != [] {
      RunAppend(m, ctx, chunks[0], Concat(chunks[1..]));
      CountPumpIsWhole(m, flush, start, Run(m, ctx, chunks[0]).state, chunks[1..]);
    }
  }

  /* Text as CRLF-terminated lines. */

  predicate StartsCrlf(s: ByteString) {
    |s| >= 2 && s[0] == CR && s[1] == LF
  }

  /** After the partial line `line`, s goes on with lines that are all good and all end with CRLF. */
  predicate GoodLines(good: ByteString -> bool, line: ByteString, s: ByteString)
    decreases |s|
  {
    if s == [] then line == []
    else if StartsCrlf(s) then good(line) && GoodLines(good, [], s[2..])
    else GoodLines(good, line + [s[0]], s[1..])
  }

  lemma NoLines(good: ByteString -> bool)
    ensures GoodLines(good, [], [])
  {
  }

  lemma LineEnds(good: ByteString -> bool, line: ByteString, s: ByteString)
    requires good(line) && GoodLines(good, [], s)
    ensures GoodLines(good, line, CRLF + s)
  {
    assert (CRLF + s)[2..] == s;
  }

  lemma LineGoesOn(good: ByteString -> bool, line: ByteString, c: Byte, s: ByteString)
    requires c != CR && GoodLines(good, line + [c], s)
    ensures GoodLines(good, line, [c] + s)
  {
    assert ([c] + s)[1..] == s;
  }
}
