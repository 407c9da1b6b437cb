/** LTN12 filters, sources, sinks and pumps (ltn12.lua): a chain of filters behaves as one filter,
    whatever the sizes of the pieces that travel through it. */
module Ltn12 {
  import opened Bytes
  import opened Streams

  /** What a filter owes: mid(x) once it has been given x, full(x) once x is known to be all. */
  datatype Spec = Spec(mid: ByteString -> ByteString, full: ByteString -> ByteString) {
    function Owes(closing: bool, s: ByteString): ByteString {
      if closing then full(s) else mid(s)
    }
  }

  ghost predicate Monotone(f: Spec) {
    && (forall a, b {:trigger f.mid(a), f.mid(b)} :: a <= b ==> f.mid(a) <= f.mid(b))
    && (forall a {:trigger f.full(a)} :: f.mid(a) <= f.full(a))
  }

  /** Where a filter stands: what it was given, what it returned, whether it answered "" last (or is new),
      and whether it has been given nil. */
  datatype Progress = Progress(consumed: ByteString, produced: ByteString, idle: bool, closed: bool)

  const UNUSED := Progress([], [], true, false)

  predicate InOrder(f: Spec, p: Progress) {
    && p.produced <= f.Owes(p.closed, p.consumed)
    && (p.idle ==> !p.closed && p.produced == f.mid(p.consumed))
  }

  /** The LTN12 protocol, the caller's side: nothing new until "" has been returned, only nil after nil. */
  predicate MayCall(p: Progress, chunk: Option<ByteString>) {
    match chunk
    case Some(c) => !p.closed && (c != [] ==> p.idle)
    case None => p.closed || p.idle
  }

  /** The filter's side: given data, it returns a piece of what it owes, and "" only when nothing is owed;
      given nil, it returns non-empty pieces and then nil. */
  predicate Answers(f: Spec, p: Progress, chunk: Option<ByteString>, p': Progress, out: Option<ByteString>) {
    && InOrder(f, p')
    && match chunk
       case Some(c) => out.Some? && p' == Progress(p.consumed + c, p.produced + out.value, out.value == [], false)
       case None =>
         match out
         case Some(o) => o != [] && p' == Progress(p.consumed, p.produced + o, false, true)
         case None => p' == Progress(p.consumed, p.produced, false, true) && p.produced == f.full(p.consumed)
  }

  /** Where a filter stands after one more call. */
  function Next(p: Progress, chunk: Option<ByteString>, out: Option<ByteString>): Progress {
    Progress(p.consumed + Text(chunk), p.produced + Text(out), out == Some([]), chunk == None)
  }

  /** A low-level filter, called with the context of the last call, keeps the protocol of f: inv relates where it
      stands and its context. How much of what it owes it returns at once is left open. */
  ghost predicate Keeps<C(!new)>(f: Spec, low: (C, Option<ByteString>) -> Call<C>, inv: (Progress, C) -> bool) {
    forall p, ctx, chunk {:trigger KeepsAt(f, low, inv, p, ctx, chunk)} :: KeepsAt(f, low, inv, p, ctx, chunk)
  }

  predicate KeepsAt<C>(f: Spec, low: (C, Option<ByteString>) -> Call<C>, inv: (Progress, C) -> bool, p: Progress, ctx: C,
                       chunk: Option<ByteString>)
  {
    inv(p, ctx) && MayCall(p, chunk) ==>
      var c := low(ctx, chunk);
      Answers(f, p, chunk, Next(p, chunk, c.out), c.out) && inv(Next(p, chunk, c.out), c.ctx)
  }

  /** filter.cycle: a low-level filter with its context. It answers as f must. */
  class Cycle<C(!new)> {
    const low: (C, Option<ByteString>) -> Call<C>
    ghost const f: Spec
    ghost const inv: (Progress, C) -> bool
    var ctx: C
    ghost var at: Progress

    ghost predicate Valid()
      reads this
    {
      Keeps(f, low, inv) && inv(at, ctx)
    }

    constructor (low: (C, Option<ByteString>) -> Call<C>, ctx: C, ghost f: Spec, ghost inv: (Progress, C) -> bool)
      requires Keeps(f, low, inv) && inv(UNUSED, ctx)
      ensures Valid() && fresh(this) && this.f == f && at == UNUSED
    {
      this.low, this.ctx, this.f, this.inv, at := low, ctx, f, inv, UNUSED;
    }

    method Filter(chunk: Option<ByteString>) returns (ret: Option<ByteString>)
      requires Valid() && MayCall(at, chunk)
      modifies this
      ensures Valid() && at == Next(old(at), chunk, ret) && Answers(f, old(at), chunk, at, ret)
    {
      hide Answers, MayCall;
      assert KeepsAt(f, low, inv, at, ctx, chunk);
      var c := low(ctx, chunk);
      ret, ctx, at := c.out, c.ctx, Next(at, chunk, c.out);
    }
  }

  /* ---- Composition ---- */

  /** s through the first i filters. */
  function Through(fs: seq<Spec>, closing: bool, s: ByteString, i: nat): ByteString
    requires i <= |fs|
  {
    if i == 0 then s else fs[i - 1].Owes(closing, Through(fs, closing, s, i - 1))
  }

  /** The composition of the filters, as one filter. */
  function Composed(fs: seq<Spec>): Spec {
    Spec((s: ByteString) => Through(fs, false, s, |fs|), (s: ByteString) => Through(fs, true, s, |fs|))
  }

  ghost predicate AllMonotone(fs: seq<Spec>) {
    forall i {:trigger fs[i]} :: 0 <= i < |fs| ==> Monotone(fs[i])
  }

  lemma {:induction false} ThroughMonotone(fs: seq<Spec>, a: ByteString, b: ByteString, i: nat)
    requires AllMonotone(fs) && i <= |fs| && a <= b
    ensures Through(fs, false, a, i) <= Through(fs, false, b, i)
    ensures Through(fs, false, a, i) <= Through(fs, true, a, i)
  {
    if i > 0 {
      ThroughMonotone(fs, a, b, i - 1);
      var f, x, y := fs[i - 1], Through(fs, false, a, i - 1), Through(fs, true, a, i - 1);
      assert f.mid(x) <= f.mid(Through(fs, false, b, i - 1));
      assert f.mid(x) <= f.mid(y) <= f.full(y);
    }
  }

  lemma ComposedMonotone(fs: seq<Spec>)
    requires AllMonotone(fs)
    ensures Monotone(Composed(fs))
  {
    var f := Composed(fs);
    forall a, b | a <= b ensures f.mid(a) <= f.mid(b) {
      ThroughMonotone(fs, a, b, |fs|);
    }
    forall a ensures f.mid(a) <= f.full(a) {
      ThroughMonotone(fs, a, a, |fs|);
    }
  }

  /* ---- The chain, between two calls of its filters ---- */

  /** The filters, the one to be called next (from 0), the first unfinished one, and the chunk for that call. */
  datatype Line = Line(arg: seq<Progress>, at: nat, top: nat, chunk: Option<ByteString>)

  /** All the bytes handed to filter i, with the chunk on its way to it. */
  function Given(l: Line, i: nat): ByteString
    requires i < |l.arg|
  {
    l.arg[i].consumed + if i == l.at then Text(l.chunk) else []
  }

  /** Each filter is fed what the previous one returned, and the first one the chain's own input. */
  predicate Linked(l: Line, input: ByteString, i: nat)
    requires i < |l.arg|
  {
    Given(l, i) == if i == 0 then input else l.arg[i - 1].produced
  }

  /** What is known of filter i from its place in the line. */
  predicate Placed(fs: seq<Spec>, l: Line, closing: bool, i: nat)
    requires i < |l.arg| == |fs|
  {
    var p := l.arg[i];
    && InOrder(fs[i], p)
    && (i < l.top ==> p.closed && p.produced == fs[i].full(p.consumed))
    && (i == l.top ==> (p.closed ==> closing) && (closing && l.at > l.top ==> p.closed))
    && (i > l.top ==> !p.closed)
    && (i > l.at ==> p.idle)
    && (i == l.at && i > l.top && Text(l.chunk) != [] ==> p.idle)
    && (i == l.at == l.top ==> MayCall(p, l.chunk) && (l.chunk.None? <==> closing))
  }

  ghost predicate Running(fs: seq<Spec>, l: Line, input: ByteString, closing: bool) {
    && AllMonotone(fs) && |l.arg| == |fs| && l.top <= l.at < |fs|
    && (closing || l.top == 0)
    && (forall i {:trigger Linked(l, input, i)} :: 0 <= i < |fs| ==> Linked(l, input, i))
    && (forall i {:trigger Placed(fs, l, closing, i)} :: 0 <= i < |fs| ==> Placed(fs, l, closing, i))
  }

  /** No filter is ahead of what the input as a whole makes it owe; finished ones have it all. */
  lemma {:induction false} NotAhead(fs: seq<Spec>, l: Line, input: ByteString, closing: bool, i: nat)
    requires Running(fs, l, input, closing) && i < |fs|
    ensures Given(l, i) <= Through(fs, closing, input, i)
    ensures closing && i <= l.top ==> Given(l, i) == Through(fs, closing, input, i)
    ensures l.arg[i].produced <= Through(fs, closing, input, i + 1)
    ensures closing && i < l.top ==> l.arg[i].produced == Through(fs, closing, input, i + 1)
  {
    assert Linked(l, input, i) && Placed(fs, l, closing, i);
    if i > 0 {
      NotAhead(fs, l, input, closing, i - 1);
    }
    var f, p, g := fs[i], l.arg[i], Through(fs, closing, input, i);
    assert p.consumed <= Given(l, i);
    if p.closed {
      assert Placed(fs, l, closing, l.at);
      assert p.consumed == Given(l, i) == g;
    }
    assert Through(fs, closing, input, i + 1) == f.Owes(closing, g);
    assert f.mid(p.consumed) <= f.mid(g) && f.mid(g) <= f.full(g);
  }

  /** What the first i filters still owe, all together. */
  function Left(fs: seq<Spec>, arg: seq<Progress>, input: ByteString, closing: bool, i: nat): int
    requires i <= |fs| == |arg|
  {
    if i == 0 then 0
    else Left(fs, arg, input, closing, i - 1) + |Through(fs, closing, input, i)| - |arg[i - 1].produced|
  }

  lemma {:induction false} LeftIsNat(fs: seq<Spec>, l: Line, input: ByteString, closing: bool, i: nat)
    requires Running(fs, l, input, closing) && i <= |fs|
    ensures Left(fs, l.arg, input, closing, i) >= 0
  {
    if i > 0 {
      LeftIsNat(fs, l, input, closing, i - 1);
      NotAhead(fs, l, input, closing, i - 1);
    }
  }

  lemma {:induction false} LeftAfter(fs: seq<Spec>, arg: seq<Progress>, input: ByteString, closing: bool, i: nat,
                                     k: nat, p: Progress)
    requires i <= |fs| == |arg| && k < |fs|
    ensures Left(fs, arg[k := p], input, closing, i) ==
            Left(fs, arg, input, closing, i) - if k < i then |p.produced| - |arg[k].produced| else 0
  {
    if i > 0 {
      LeftAfter(fs, arg, input, closing, i - 1, k, p);
    }
  }

  /* ---- The moves of the loop ---- */

  /** What the filter in turn is called with. */
  function Feed(l: Line): Option<ByteString> {
    if l.at == l.top then l.chunk else Some(Text(l.chunk))
  }

  /** Data goes up to the next filter. */
  lemma MoveUp(fs: seq<Spec>, l: Line, input: ByteString, closing: bool, p': Progress, o: ByteString)
    requires Running(fs, l, input, closing) && l.at + 1 < |fs|
    requires Answers(fs[l.at], l.arg[l.at], Feed(l), p', Some(o)) && o != []
    ensures Running(fs, Line(l.arg[l.at := p'], l.at + 1, l.top, Some(o)), input, closing)
  {
    var l' := Line(l.arg[l.at := p'], l.at + 1, l.top, Some(o));
    forall i | 0 <= i < |fs| ensures Linked(l', input, i) && Placed(fs, l', closing, i) {
      assert Linked(l, input, i) && Placed(fs, l, closing, i);
    }
  }

  /** A filter has returned everything: back to the one before. */
  lemma MoveDown(fs: seq<Spec>, l: Line, input: ByteString, closing: bool, p': Progress)
    requires Running(fs, l, input, closing) && l.top < l.at
    requires Answers(fs[l.at], l.arg[l.at], Feed(l), p', Some([]))
    ensures Running(fs, Line(l.arg[l.at := p'], l.at - 1, l.top, if closing then None else Some([])), input, closing)
  {
    var l' := Line(l.arg[l.at := p'], l.at - 1, l.top, if closing then None else Some([]));
    assert p'.produced == l.arg[l.at].produced;
    forall i | 0 <= i < |fs| ensures Linked(l', input, i) && Placed(fs, l', closing, i) {
      assert Linked(l, input, i) && Placed(fs, l, closing, i);
    }
  }

  /** The first unfinished filter is finished: nil goes to the next one. */
  lemma MoveTop(fs: seq<Spec>, l: Line, input: ByteString, p': Progress)
    requires Running(fs, l, input, true) && l.top == l.at && l.at + 1 < |fs|
    requires Answers(fs[l.at], l.arg[l.at], None, p', None)
    ensures Running(fs, Line(l.arg[l.at := p'], l.at + 1, l.top + 1, None), input, true)
  {
    var l' := Line(l.arg[l.at := p'], l.at + 1, l.top + 1, None);
    forall i | 0 <= i < |fs| ensures Linked(l', input, i) && Placed(fs, l', true, i) {
      assert Linked(l, input, i) && Placed(fs, l, true, i);
    }
  }

  /** The chain stops here for now: nothing is on its way. */
  function Rest(arg: seq<Progress>, at: nat, top: nat, closing: bool): Line {
    Line(arg, at, top, if closing then None else Some([]))
  }

  lemma Stay(fs: seq<Spec>, l: Line, input: ByteString, closing: bool, p': Progress, out: Option<ByteString>)
    requires Running(fs, l, input, closing)
    requires Answers(fs[l.at], l.arg[l.at], Feed(l), p', out)
    requires l.at + 1 == |fs| || (l.at == l.top && out == Some([]))
    ensures Running(fs, Rest(l.arg[l.at := p'], l.at, l.top, closing), input, closing)
  {
    hide Answers, AllMonotone, InOrder;
    var l' := Rest(l.arg[l.at := p'], l.at, l.top, closing);
    forall i | 0 <= i < |fs| ensures Linked(l', input, i) && Placed(fs, l', closing, i) {
      assert Linked(l, input, i) && Placed(fs, l, closing, i);
      if i == l.at {
        StaysPlaced(fs, l, input, closing, p', out);
      } else if i == l.at + 1 {
        StaysQuiet(fs, l, closing, p', out);
      }
    }
  }

  /** The filter in turn. */
  lemma StaysPlaced(fs: seq<Spec>, l: Line, input: ByteString, closing: bool, p': Progress, out: Option<ByteString>)
    requires l.top <= l.at < |l.arg| == |fs| && Linked(l, input, l.at) && Placed(fs, l, closing, l.at)
    requires Answers(fs[l.at], l.arg[l.at], Feed(l), p', out)
    ensures var l' := Rest(l.arg[l.at := p'], l.at, l.top, closing);
      Linked(l', input, l.at) && Placed(fs, l', closing, l.at)
  {
    assert p'.consumed + [] == p'.consumed;
  }

  /** The one behind it, which gets nothing new. */
  lemma StaysQuiet(fs: seq<Spec>, l: Line, closing: bool, p': Progress, out: Option<ByteString>)
    requires l.top <= l.at < |l.arg| == |fs|
    requires Answers(fs[l.at], l.arg[l.at], Feed(l), p', out) && out == Some([])
    ensures p'.produced == l.arg[l.at].produced
  {
  }

  /** When the first filter has nothing left either, the chain has returned all it owes. */
  lemma {:induction false} Settled(fs: seq<Spec>, l: Line, input: ByteString, i: nat)
    requires Running(fs, l, input, false) && l.at == 0 && l.arg[0].idle && Text(l.chunk) == [] && i < |fs|
    ensures l.arg[i].produced == Through(fs, false, input, i + 1)
  {
    assert Linked(l, input, i) && Placed(fs, l, false, i);
    if i > 0 {
      Settled(fs, l, input, i - 1);
    }
    assert Given(l, i) == l.arg[i].consumed;
  }

  /** What the last filter has returned, when the chain rests, is what the composition owes so far. */
  lemma Returned(fs: seq<Spec>, l: Line, input: ByteString, closing: bool, idle: bool, finished: bool)
    requires Running(fs, l, input, closing) && l == Rest(l.arg, l.at, l.top, closing)
    requires idle ==> !closing && l.at == 0 && l.arg[0].idle
    requires finished ==> closing && l.at == l.top == |fs| - 1 && l.arg[l.at].produced == fs[l.at].full(l.arg[l.at].consumed)
    ensures InOrder(Composed(fs), Progress(input, l.arg[|fs| - 1].produced, idle, closing))
    ensures finished ==> l.arg[|fs| - 1].produced == Composed(fs).full(input)
  {
    var n := |fs|;
    NotAhead(fs, l, input, closing, n - 1);
    if idle {
      Settled(fs, l, input, n - 1);
    }
    if finished {
      assert Given(l, l.at) == l.arg[l.at].consumed;
      assert Through(fs, true, input, n) == fs[n - 1].Owes(true, Through(fs, true, input, n - 1));
    }
  }

  /** One turn of the loop: the line after filter at has answered p and out, or None when the call returns. */
  function Turn(n: nat, l: Line, closing: bool, p: Progress, out: Option<ByteString>): Option<Line>
    requires l.top <= l.at < |l.arg|
  {
    var arg := l.arg[l.at := p];
    if l.at == l.top then
      if out == Some([]) || l.top + 1 == n then None
      else if out.Some? then Some(Line(arg, l.at + 1, l.top, out))
      else Some(Line(arg, l.top + 1, l.top + 1, None))
    else
      if out == Some([]) then Some(Line(arg, l.at - 1, l.top, if closing then None else Some([])))
      else if l.at + 1 == n then None
      else Some(Line(arg, l.at + 1, l.top, out))
  }

  /** How long the loop can still go on. */
  function Measure(fs: seq<Spec>, l: Line, input: ByteString, closing: bool): int
    requires |fs| == |l.arg|
  {
    2 * Left(fs, l.arg, input, closing, |fs|) + 2 * (|fs| - l.top) + l.at
  }

  lemma TurnKeeps(fs: seq<Spec>, l: Line, input: ByteString, closing: bool, p: Progress, out: Option<ByteString>)
    requires Running(fs, l, input, closing)
    requires Answers(fs[l.at], l.arg[l.at], Feed(l), p, out)
    ensures |l.arg| == |fs| && l.top <= l.at < |fs|
    ensures match Turn(|fs|, l, closing, p, out)
      case None => Running(fs, Rest(l.arg[l.at := p], l.at, l.top, closing), input, closing)
      case Some(l') => Running(fs, l', input, closing) && l'.arg == l.arg[l.at := p]
  {
    hide Answers, Placed, Linked, AllMonotone;
    AnswerKinds(fs, l, input, closing, p, out);
    var next := Turn(|fs|, l, closing, p, out);
    if next == None {
      Stay(fs, l, input, closing, p, out);
    } else if out == None {
      MoveTop(fs, l, input, p);
    } else if out == Some([]) {
      MoveDown(fs, l, input, closing, p);
    } else {
      MoveUp(fs, l, input, closing, p, out.value);
    }
  }

  /** Which answers can come, and how much they add. */
  lemma AnswerKinds(fs: seq<Spec>, l: Line, input: ByteString, closing: bool, p: Progress, out: Option<ByteString>)
    requires Running(fs, l, input, closing)
    requires Answers(fs[l.at], l.arg[l.at], Feed(l), p, out)
    ensures l.top <= l.at < |fs| == |l.arg|
    ensures out == None ==> l.at == l.top && closing && l.chunk == None
    ensures out == Some([]) && l.at == l.top ==> !closing
    ensures |p.produced| == |l.arg[l.at].produced| + |Text(out)|
    ensures out.None? || out.value == [] ==> p.produced == l.arg[l.at].produced
  {
    assert Placed(fs, l, closing, l.at);
  }

  /** The loop ends. */
  lemma TurnShrinks(fs: seq<Spec>, l: Line, input: ByteString, closing: bool, p: Progress, out: Option<ByteString>)
    requires Running(fs, l, input, closing)
    requires Answers(fs[l.at], l.arg[l.at], Feed(l), p, out)
    requires Turn(|fs|, l, closing, p, out).Some?
    ensures var l' := Turn(|fs|, l, closing, p, out).value;
      && |l'.arg| == |fs| && l'.arg[|fs| - 1].produced == l.arg[|fs| - 1].produced
      && 0 <= Measure(fs, l', input, closing) < Measure(fs, l, input, closing)
  {
    hide Answers, Placed, Linked, AllMonotone, Through, InOrder;
    AnswerKinds(fs, l, input, closing, p, out);
    TurnKeeps(fs, l, input, closing, p, out);
    LeftAfter(fs, l.arg, input, closing, |fs|, l.at, p);
    LeftIsNat(fs, Turn(|fs|, l, closing, p, out).value, input, closing, |fs|);
  }

  /** The state of a chain between two calls; total is the chain seen as one filter. */
  ghost predicate Resting(fs: seq<Spec>, arg: seq<Progress>, at: nat, top: nat, total: Progress) {
    && Running(fs, Rest(arg, at, top, total.closed), total.consumed, total.closed)
    && InOrder(Composed(fs), total)
    && total.produced == arg[|fs| - 1].produced
    && (total.idle ==> at == 0 && arg[0].idle)
  }

  /** In the middle of a call of the chain that began at was. */
  ghost predicate Going(fs: seq<Spec>, l: Line, was: Progress, chunk: Option<ByteString>) {
    && Running(fs, l, was.consumed + Text(chunk), chunk.None?)
    && l.arg[|fs| - 1].produced == was.produced
  }

  lemma Entered(fs: seq<Spec>, arg: seq<Progress>, at: nat, top: nat, total: Progress, chunk: Option<ByteString>)
    requires Resting(fs, arg, at, top, total) && MayCall(total, chunk)
    ensures |arg| == |fs| && Going(fs, Line(arg, at, top, chunk), total, chunk)
    ensures chunk.Some? ==> !total.closed
  {
    var l, l' := Rest(arg, at, top, total.closed), Line(arg, at, top, chunk);
    var input := total.consumed + Text(chunk);
    forall i | 0 <= i < |fs| ensures Linked(l', input, i) && Placed(fs, l', chunk.None?, i) {
      assert Linked(l, total.consumed, i) && Placed(fs, l, total.closed, i);
    }
  }

  /** A call that returns leaves the chain at rest, and has answered as the composition must. */
  lemma Leaving(fs: seq<Spec>, l: Line, p: Progress, input: ByteString, closing: bool, out: Option<ByteString>,
              was: Progress, chunk: Option<ByteString>)
    requires Running(fs, l, input, closing)
    requires Answers(fs[l.at], l.arg[l.at], Feed(l), p, out) && Turn(|fs|, l, closing, p, out) == None
    requires l.arg[|fs| - 1].produced == was.produced
    requires input == was.consumed + Text(chunk) && closing == chunk.None?
    ensures var total := Progress(input, l.arg[l.at := p][|fs| - 1].produced, out == Some([]), closing);
      && Resting(fs, l.arg[l.at := p], l.at, l.top, total)
      && Answers(Composed(fs), was, chunk, total, out)
  {
    TurnKeeps(fs, l, input, closing, p, out);
    assert Placed(fs, l, closing, l.at);
    var arg := l.arg[l.at := p];
    Returned(fs, Rest(arg, l.at, l.top, closing), input, closing, out == Some([]), out == None);
    if l.at + 1 < |fs| {
      assert was.produced + [] == was.produced;
    }
  }

  lemma Callable(fs: seq<Spec>, l: Line, was: Progress, chunk: Option<ByteString>)
    requires Going(fs, l, was, chunk)
    ensures l.at < |fs| == |l.arg| && Monotone(fs[l.at]) && InOrder(fs[l.at], l.arg[l.at])
    ensures MayCall(l.arg[l.at], Feed(l))
  {
    assert Placed(fs, l, chunk.None?, l.at);
  }

  /** After each turn the call goes on, and not for ever, or it has answered as the composition must. */
  lemma AfterTurn(fs: seq<Spec>, l: Line, was: Progress, chunk: Option<ByteString>, p: Progress, out: Option<ByteString>)
    returns (total: Progress)
    requires Going(fs, l, was, chunk)
    requires Answers(fs[l.at], l.arg[l.at], Feed(l), p, out)
    ensures |l.arg| == |fs| && l.top <= l.at < |fs|
    ensures match Turn(|fs|, l, chunk.None?, p, out)
      case None =>
        && Resting(fs, l.arg[l.at := p], l.at, l.top, total)
        && total.closed == chunk.None?
        && Answers(Composed(fs), was, chunk, total, out)
      case Some(l') =>
        var input := was.consumed + Text(chunk);
        && total == was && l'.arg == l.arg[l.at := p] && Going(fs, l', was, chunk)
        && 0 <= Measure(fs, l', input, chunk.None?) < Measure(fs, l, input, chunk.None?)
  {
    hide Running, Resting, Answers, Measure, Placed, InOrder, Composed, Left, Through;
    var input := was.consumed + Text(chunk);
    TurnKeeps(fs, l, input, chunk.None?, p, out);
    if Turn(|fs|, l, chunk.None?, p, out).Some? {
      TurnShrinks(fs, l, input, chunk.None?, p, out);
      total := was;
    } else {
      Leaving(fs, l, p, input, chunk.None?, out, was, chunk);
      total := Progress(input, l.arg[l.at := p][|fs| - 1].produced, out == Some([]), chunk.None?);
    }
  }

  lemma AtStart(fs: seq<Spec>, arg: seq<Progress>)
    requires fs != [] && AllMonotone(fs) && forall i :: 0 <= i < |fs| ==> fs[i].mid([]) == []
    requires |arg| == |fs| && forall i :: 0 <= i < |fs| ==> arg[i] == UNUSED
    ensures Resting(fs, arg, 0, 0, UNUSED)
  {
    var l := Rest(arg, 0, 0, false);
    assert forall i :: 0 <= i < |fs| ==> Linked(l, [], i) && Placed(fs, l, false, i);
    Settled(fs, l, [], |fs| - 1);
  }

  lemma Fed(l: Line)
    ensures Feed(l) == if l.at == l.top then l.chunk else Some(Text(l.chunk))
  {
  }

  /** filter.chain */
  class Chain<C(!new)> {
    const filters: seq<Cycle<C>>
    ghost const fs: seq<Spec>
    var index: nat
    var top: nat
    var retry: Option<ByteString>
    ghost var total: Progress

    /** The filters, each one's specification, no filter twice. */
    ghost predicate Filters()
      reads filters
    {
      && |filters| == |fs|
      && (forall i :: 0 <= i < |fs| ==> filters[i].Valid() && filters[i].f == fs[i])
      && (forall i, j :: 0 <= i < j < |fs| ==> filters[i] != filters[j])
    }

    ghost function Args(): seq<Progress>
      reads filters
    {
      seq(|filters|, i requires 0 <= i < |filters| reads filters => filters[i].at)
    }

    ghost predicate Valid()
      reads this, filters
    {
      && 1 <= top <= index <= |fs| && Filters()
      && Resting(fs, Args(), index - 1, top - 1, total)
      && retry == (if total.closed then None else Some([]))
    }

    constructor (filters: seq<Cycle<C>>, ghost fs: seq<Spec>)
      requires fs != [] && AllMonotone(fs) && (forall i :: 0 <= i < |fs| ==> fs[i].mid([]) == [])
      requires |filters| == |fs| && forall i :: 0 <= i < |fs| ==> filters[i].Valid() && filters[i].f == fs[i] && filters[i].at == UNUSED
      requires forall i, j :: 0 <= i < j < |fs| ==> filters[i] != filters[j]
      ensures Valid() && fresh(this) && this.filters == filters && this.fs == fs && total == UNUSED
    {
      this.filters, this.fs := filters, fs;
      index, top, retry, total := 1, 1, Some([]), UNUSED;
      new;
      AtStart(fs, Args());
    }

    lemma Sizes()
      requires Filters()
      ensures |filters| == |fs| == |Args()|
    {
    }

    lemma Standing()
      requires Valid()
      ensures fs != [] && InOrder(Composed(fs), total) && Monotone(Composed(fs))
    {
      ComposedMonotone(fs);
    }

    method CallFilter(i: nat, chunk: Option<ByteString>) returns (out: Option<ByteString>)
      requires Filters() && i < |fs| && MayCall(Args()[i], chunk)
      modifies filters
      ensures Filters() && |Args()| == |filters| == |fs| && Args() == old(Args())[i := Args()[i]]
      ensures Answers(fs[i], old(Args())[i], chunk, Args()[i], out)
    {
      hide Answers, MayCall;
      out := filters[i].Filter(chunk);
    }

    /** Where to go with what a filter has returned, unless it is the answer of the chain. */
    method Advance(ghost l: Line, ghost closing: bool, ghost p: Progress, out: Option<ByteString>)
      returns (stop: bool, cur: Option<ByteString>)
      requires 1 <= top <= index <= |filters| == |l.arg| && l.at == index - 1 && l.top == top - 1
      requires retry == if closing then None else Some([])
      modifies this`index, this`top
      ensures 1 <= top <= index <= |filters|
      ensures Turn(|filters|, l, closing, p, out) ==
              if stop then None else Some(Line(l.arg[l.at := p], index - 1, top - 1, cur))
      ensures stop ==> index == old(index) && top == old(top)
    {
      stop, cur := false, out;
      if index == top {
        if out == Some([]) || top == |filters| { return true, out; }
        if out.Some? {
          index := index + 1;
        } else {
          top := top + 1;
          index := top;
        }
      } else if out == Some([]) {
        index, cur := index - 1, retry;
      } else if index == |filters| {
        stop := true;
      } else {
        index := index + 1;
      }
    }

    /** A chain of filters that keep the protocol is a filter that keeps it, and what it owes is the
        composition of what they owe. */
    method Call(chunk: Option<ByteString>) returns (out: Option<ByteString>)
      requires Valid() && MayCall(total, chunk)
      modifies this, filters
      ensures Valid()
      ensures Answers(Composed(fs), old(total), chunk, total, out)
    {
      hide Running, Resting, Answers, Measure, Placed, InOrder, Composed, Left, Through, AllMonotone, Monotone, MayCall,
           Given, Linked, Going, Filters, Args, Feed, Turn;
      if chunk == None { retry := None; }
      ghost var was := total;
      var cur := chunk;
      Sizes();
      Entered(fs, Args(), index - 1, top - 1, total, chunk);
      ghost var l := Line(Args(), index - 1, top - 1, cur);
      while true
        invariant 1 <= top <= index <= |filters| == |fs| == |l.arg| && Filters() && total == was
        invariant l == Line(Args(), index - 1, top - 1, cur) && Going(fs, l, was, chunk)
        invariant retry == (if chunk.None? then None else Some([]))
        decreases Measure(fs, l, was.consumed + Text(chunk), chunk.None?)
      {
        Callable(fs, l, was, chunk);
        assert Feed(l) == if index == top then cur else Some(Text(cur)) by { Fed(l); }
        out := CallFilter(index - 1, if index == top then cur else Some(Text(cur)));
        ghost var args := Args();
        ghost var sum := AfterTurn(fs, l, was, chunk, args[index - 1], out);
        ghost var next := Turn(|fs|, l, chunk.None?, args[index - 1], out);
        var stop;
        stop, cur := Advance(l, chunk.None?, args[index - 1], out);
        assert Args() == args;
        if stop {
          total := sum;
          return;
        }
        l := next.value;
      }
    }
  }
}
