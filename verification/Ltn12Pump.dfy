/** Sources and sinks chained with filters, and the pump between them (ltn12.lua:101-114, 138-183, 253-290). */
module Ltn12Pump {
  import opened Bytes
  import opened Streams
  import opened Ltn12

  const BLOCKSIZE := 2048

  /** A string cut into the blocks that source.string hands out. */
  function Blocks(s: ByteString): (r: seq<ByteString>)
    ensures Concat(r) == s
    ensures forall i {:trigger r[i]} :: 0 <= i < |r| ==> 0 < |r[i]| <= BLOCKSIZE && (i < |r| - 1 ==> |r[i]| == BLOCKSIZE)
    decreases |s|
  {
    if s == [] then []
    else if |s| <= BLOCKSIZE then assert Concat([s]) == s + Concat([]); [s]
    else [s[..BLOCKSIZE]] + Blocks(s[BLOCKSIZE..])
  }

  lemma BlocksOf2048(s: ByteString)
    ensures Blocks(s) ==
            if s == [] then [] else if |s| <= 2048 then [s] else [s[..2048]] + Blocks(s[2048..])
  {
  }

  /** source.string */
  class StringSource {
    const s: ByteString
    var i: nat

    constructor (s: ByteString)
      ensures Left() == Blocks(s) && fresh(this)
    {
      this.s := s;
      i := 1;
    }

    /** The chunks still to come. */
    ghost function Left(): seq<ByteString>
      reads this
    {
      if 1 <= i <= |s| then Blocks(s[i - 1..]) else []
    }

    method Next() returns (chunk: Option<ByteString>)
      requires i >= 1
      modifies this
      ensures i >= 1
      ensures old(Left()) == [] ==> chunk == None && Left() == []
      ensures old(Left()) != [] ==> chunk == Some(old(Left())[0]) && Left() == old(Left())[1..]
    {
      var from := if i - 1 < |s| then i - 1 else |s|;
      var upto := if i - 1 + BLOCKSIZE < |s| then i - 1 + BLOCKSIZE else |s|;
      var c := s[from..upto];
      assert from + BLOCKSIZE < |s| ==> c == s[from..][..BLOCKSIZE] && s[upto..] == s[from..][BLOCKSIZE..];
      assert from + BLOCKSIZE >= |s| ==> c == s[from..];
      i := i + BLOCKSIZE;
      chunk := if c != [] then Some(c) else None;
    }
  }

  /** Any source: it returns its chunks, of any sizes, then nil, with an error or without. */
  class Source {
    var chunks: seq<ByteString>
    const err: Option<string>

    constructor (chunks: seq<ByteString>, err: Option<string>)
      ensures this.chunks == chunks && this.err == err && fresh(this)
    {
      this.chunks, this.err := chunks, err;
    }

    method Next() returns (chunk: Option<ByteString>, e: Option<string>)
      modifies this
      ensures old(chunks) == [] ==> chunks == [] && chunk == None && e == err
      ensures old(chunks) != [] ==> chunks == old(chunks)[1..] && chunk == Some(old(chunks)[0]) && e == None
    {
      if chunks == [] { return None, err; }
      chunk, e := Some(chunks[0]), None;
      chunks := chunks[1..];
    }
  }

  /** Any sink: it takes what it is given, and may refuse from some call on, with an error or without. Without
      patience it never refuses. */
  class Sink {
    var got: ByteString
    var ended: bool
    var puts: nat
    var refused: bool
    const patience: Option<nat>
    const why: Option<string>

    /** It has taken at most as many calls as it has patience for, and has refused one only then. */
    ghost predicate Valid()
      reads this
    {
      && (patience.Some? ==> puts <= patience.value) && (refused ==> patience == Some(puts))
      && (puts == 0 ==> got == [] && !ended)
    }

    constructor (patience: Option<nat>, why: Option<string>)
      ensures Valid() && fresh(this) && got == [] && !ended && puts == 0 && !refused
      ensures this.patience == patience && this.why == why
    {
      got, ended, puts, refused, this.patience, this.why := [], false, 0, false, patience, why;
    }

    method Put(chunk: Option<ByteString>, err: Option<string>) returns (ok: bool, e: Option<string>)
      requires Valid()
      modifies this
      ensures Valid() && ok == (patience != Some(old(puts))) && refused == (old(refused) || !ok)
      ensures ok ==> got == old(got) + Text(chunk) && ended == (old(ended) || chunk == None) && puts == old(puts) + 1 && e == None
      ensures !ok ==> got == old(got) && ended == old(ended) && puts == old(puts) && e == why
    {
      if patience == Some(puts) {
        refused := true;
        return false, why;
      }
      puts := puts + 1;
      got, ended := got + Text(chunk), ended || chunk == None;
      return true, None;
    }
  }

  /** What an answer adds. */
  lemma Answered(f: Spec, was: Progress, chunk: Option<ByteString>, p: Progress, out: Option<ByteString>)
    requires Answers(f, was, chunk, p, out)
    ensures p.consumed == was.consumed + Text(chunk) && p.closed == chunk.None? && p.produced == was.produced + Text(out)
    ensures Text(chunk) == [] ==> p.consumed == was.consumed
    ensures Text(out) == [] ==> p.produced == was.produced
    ensures p.idle == (out == Some([])) && (if chunk.Some? then out.Some? else !p.idle)
    ensures out.None? ==> p.produced == f.full(p.consumed)
    ensures p.produced <= f.Owes(p.closed, p.consumed) && (p.idle ==> p.produced == f.mid(p.consumed))
  {
    assert Text(chunk) == [] ==> was.consumed + Text(chunk) == was.consumed;
    assert Text(out) == [] ==> was.produced + Text(out) == was.produced;
  }

  /** Reading one chunk moves it from what is left to what was read. */
  lemma Reading(read: ByteString, left: seq<ByteString>)
    ensures left == [] ==> read + Concat(left) == read
    ensures left != [] ==> read + left[0] + Concat(left[1..]) == read + Concat(left)
  {
    if left != [] {
      Assoc(read, left[0], Concat(left[1..]));
    }
  }

  datatype State = Feeding | Eating

  /** source.chain */
  class SourceChain<C(!new)> {
    const src: Source
    const filter: Chain<C>
    ghost const input: ByteString
    var lastIn: Option<ByteString>
    var lastOut: Option<ByteString>
    var state: State

    ghost predicate Valid()
      reads this, src, filter, filter.filters
    {
      && filter.Valid()
      && filter.total.consumed + Concat(src.chunks) == input
      && (filter.total.closed ==> src.chunks == [] && src.err == None)
      && (lastOut.Some? ==> match state
         case Feeding => filter.total.idle
         case Eating => lastIn == if filter.total.closed then None else Some([]))
    }

    /** The source has returned an error. */
    ghost predicate Failed()
      reads this
    {
      state == Feeding && lastIn == None && lastOut.Some?
    }

    constructor (src: Source, filter: Chain<C>)
      requires filter.Valid() && filter.total == UNUSED
      ensures Valid() && fresh(this) && lastOut.Some? && !Failed()
      ensures this.src == src && this.filter == filter && input == Concat(src.chunks)
    {
      this.src, this.filter, input := src, filter, Concat(src.chunks);
      lastIn, lastOut, state := Some([]), Some([]), Feeding;
    }

    /** The next piece of the filtered input. Calling again after nil raises an error in the original. */
    method Next() returns (chunk: Option<ByteString>, err: Option<string>)
      requires Valid() && lastOut.Some?
      modifies this, src, filter, filter.filters
      ensures Valid() && Failed() == err.Some?
      ensures match chunk
        case Some(c) =>
          && c != [] && err == None && lastOut.Some?
          && filter.total.produced == old(filter.total.produced) + c
        case None =>
          && err == src.err && src.chunks == [] && filter.total.produced == old(filter.total.produced)
          && filter.total.produced == Composed(filter.fs).Owes(err == None, input)
    {
      hide Answers, Composed, Concat, InOrder, Monotone, Chain.Valid;
      ghost var before, f := filter.total.produced, Composed(filter.fs);
      err := None;
      while true
        invariant Valid() && filter.total.produced == before && lastOut.Some? && err == None
        decreases |src.chunks|, if state == Eating then 1 else 0
      {
        ghost var was := filter.total;
        filter.Standing();
        Reading(was.consumed, src.chunks);
        if state == Feeding {
          lastIn, err := src.Next();
          if err.Some? {
            return None, err;
          }
          lastOut := filter.Call(lastIn);
          Answered(f, was, lastIn, filter.total, lastOut);
          if lastOut == None { return None, None; }
          if lastOut != Some([]) {
            state := Eating;
            if lastIn.Some? { lastIn := Some([]); }
            return lastOut, None;
          }
        } else {
          lastOut := filter.Call(lastIn);
          Answered(f, was, lastIn, filter.total, lastOut);
          if lastOut == Some([]) {
            state := Feeding;
          } else {
            return lastOut, None;
          }
        }
      }
    }

    lemma Ahead()
      requires Valid()
      ensures filter.total.produced <= Composed(filter.fs).Owes(src.err == None, input)
      ensures filter.total.produced <= Composed(filter.fs).full(input)
      ensures filter.total.closed ==> filter.total.consumed == input
    {
      hide Composed;
      filter.Standing();
      Reading(filter.total.consumed, src.chunks);
      var f := Composed(filter.fs);
      assert filter.total.consumed <= input;
      assert f.mid(filter.total.consumed) <= f.mid(input) <= f.full(input);
    }
  }

  /** sink.chain */
  class SinkChain<C(!new)> {
    const filter: Chain<C>
    const snk: Sink

    ghost predicate Valid()
      reads this, snk, filter, filter.filters
    {
      filter.Valid() && snk.Valid() && !snk.refused && snk.got == filter.total.produced
    }

    constructor (filter: Chain<C>, snk: Sink)
      requires filter.Valid() && filter.total == UNUSED && snk.Valid() && !snk.refused && snk.got == []
      ensures Valid() && fresh(this) && this.filter == filter && this.snk == snk
    {
      this.filter, this.snk := filter, snk;
    }

    /** Everything the filter makes of the chunk goes to the sink, at once, unless the sink refuses. */
    method Put(chunk: Option<ByteString>, err: Option<string>) returns (ok: bool, e: Option<string>)
      requires Valid() && filter.total.idle
      modifies filter, filter.filters, snk
      ensures filter.Valid() && filter.total.consumed == old(filter.total.consumed) + Text(chunk)
      ensures filter.total.closed == chunk.None?
      ensures snk.Valid() && ok == !snk.refused
      ensures ok ==> Valid() && filter.total.idle == chunk.Some? && e == None
      ensures ok && chunk == None ==> snk.ended && snk.got == Composed(filter.fs).full(filter.total.consumed)
      ensures !ok ==> e == snk.why && snk.got <= Composed(filter.fs).Owes(chunk.None?, filter.total.consumed)
    {
      hide Answers, Composed, InOrder, Monotone, Chain.Valid;
      ghost var f, was, consumed := Composed(filter.fs), filter.total, filter.total.consumed + Text(chunk);
      filter.Standing();
      e := None;
      if chunk != Some([]) {
        var filtered := filter.Call(chunk);
        Answered(f, was, chunk, filter.total, filtered);
        var done := if chunk.Some? then Some([]) else None;
        while true
          invariant filter.Valid() && filter.total.consumed == consumed && filter.total.closed == chunk.None?
          invariant filter.total.produced == snk.got + Text(filtered) <= f.Owes(chunk.None?, consumed)
          invariant filter.total.idle == (filtered == Some([])) && (chunk.Some? ==> filtered.Some?)
          invariant filtered.None? ==> filter.total.produced == f.full(consumed)
          invariant snk.Valid() && !snk.refused
          decreases |f.Owes(chunk.None?, consumed)| - |filter.total.produced|, if filtered == done then 0 else 1
        {
          ghost var before := filter.total;
          ok, e := snk.Put(filtered, err);
          if !ok { return; }
          if filtered == done { return; }
          filtered := filter.Call(done);
          Answered(f, before, done, filter.total, filtered);
        }
      } else {
        assert consumed == filter.total.consumed;
        return true, None;
      }
    }
  }

  /** What the sink ends up with: all the input through all the filters. After a source error the source's own
      filters are not closed, but the sink's are. */
  function Target(first: Spec, second: Spec, err: Option<string>, input: ByteString): ByteString {
    second.full(first.Owes(err == None, input))
  }

  lemma {:induction false} ThroughBoth(fs: seq<Spec>, gs: seq<Spec>, closing: bool, s: ByteString, k: nat)
    requires k <= |fs| + |gs|
    ensures Through(fs + gs, closing, s, k) ==
            if k <= |fs| then Through(fs, closing, s, k) else Through(gs, closing, Through(fs, closing, s, |fs|), k - |fs|)
  {
    if k > 0 {
      ThroughBoth(fs, gs, closing, s, k - 1);
    }
  }

  /** It does not matter which of the filters sit at the source and which at the sink. */
  lemma SplitAnywhere(fs: seq<Spec>, gs: seq<Spec>, input: ByteString)
    ensures Target(Composed(fs), Composed(gs), None, input) == Composed(fs + gs).full(input)
  {
    ThroughBoth(fs, gs, true, input, |fs| + |gs|);
    if gs == [] {
      assert fs + gs == fs;
    }
  }

  /** pump.step */
  method PumpStep<C(!new), D(!new)>(src: SourceChain<C>, snk: SinkChain<D>) returns (more: bool, err: Option<string>)
    requires Pumping(src, snk)
    modifies src, src.src, src.filter, src.filter.filters, snk.filter, snk.filter.filters, snk.snk
    ensures more ==> Pumping(src, snk) && |src.filter.total.produced| > old(|src.filter.total.produced|)
    ensures !more ==> Pumped(src, snk, err)
  {
    hide Composed, Chain.Valid;
    src.Ahead();
    src.filter.Standing();
    snk.filter.Standing();
    ghost var f, g := Composed(src.filter.fs), Composed(snk.filter.fs);
    var chunk, srcErr := src.Next();
    ghost var given := snk.filter.total.consumed + Text(chunk);
    src.Ahead();
    assert given == src.filter.total.produced;
    var ret, snkErr := snk.Put(chunk, srcErr);
    more := chunk.Some? && ret;
    err := if more then None else if srcErr.Some? then srcErr else snkErr;
    if !ret {
      Prefix(f, g, given, chunk, src.src.err, src.input);
    }
  }

  /** The filters of the two ends have nothing in common. */
  ghost predicate Apart<C(!new), D(!new)>(src: SourceChain<C>, snk: SinkChain<D>) {
    && src.filter as object != snk.filter as object
    && forall i, j :: 0 <= i < |src.filter.filters| && 0 <= j < |snk.filter.filters| ==>
         src.filter.filters[i] as object != snk.filter.filters[j] as object
  }

  /** Before a step: what the source gave has gone to the sink. */
  ghost predicate Pumping<C(!new), D(!new)>(src: SourceChain<C>, snk: SinkChain<D>)
    reads src, src.src, src.filter, src.filter.filters, snk, snk.filter, snk.filter.filters, snk.snk
  {
    && Apart(src, snk)
    && src.Valid() && src.lastOut.Some? && !src.Failed() && snk.Valid() && snk.filter.total.idle
    && snk.filter.total.consumed == src.filter.total.produced
  }

  /** After the last step: unless the sink has refused something it has everything, and the error is the source's. A
      refusal counts as a success when it comes without an error, and no error of the source came at the same time. */
  ghost predicate Pumped<C(!new), D(!new)>(src: SourceChain<C>, snk: SinkChain<D>, err: Option<string>)
    reads src, src.src, src.filter, src.filter.filters, snk, snk.filter, snk.filter.filters, snk.snk
  {
    var all := Target(Composed(src.filter.fs), Composed(snk.filter.fs), src.src.err, src.input);
    && snk.snk.Valid() && (src.Failed() ==> src.src.err.Some?)
    && if snk.snk.refused then
         snk.snk.got <= all && err == if src.Failed() then src.src.err else snk.snk.why
       else
         snk.snk.got == all && snk.snk.ended && err == src.src.err
  }

  /** pump.all: whatever the sizes of the chunks and of the filters' answers, pumping stops; a sink that never refuses
      gets the whole input through all the filters, any other that or a part of it from the start. */
  method PumpAll<C(!new), D(!new)>(src: SourceChain<C>, snk: SinkChain<D>) returns (err: Option<string>)
    requires Pumping(src, snk)
    modifies src, src.src, src.filter, src.filter.filters, snk.filter, snk.filter.filters, snk.snk
    ensures Pumped(src, snk, err)
    ensures snk.snk.patience == None ==>
      && snk.snk.got == Target(Composed(src.filter.fs), Composed(snk.filter.fs), src.src.err, src.input)
      && snk.snk.ended && err == src.src.err
  {
    hide Composed, Chain.Valid;
    while true
      invariant Pumping(src, snk)
      decreases |Composed(src.filter.fs).full(src.input)| - |src.filter.total.produced|
    {
      src.Ahead();
      var more;
      more, err := PumpStep(src, snk);
      if !more { return; }
      src.Ahead();
    }
  }

  lemma Prefix(f: Spec, g: Spec, given: ByteString, chunk: Option<ByteString>, err: Option<string>, input: ByteString)
    requires Monotone(f) && Monotone(g)
    requires given <= f.Owes(err == None, input) && (chunk == None ==> given == f.Owes(err == None, input))
    ensures g.Owes(chunk.None?, given) <= Target(f, g, err, input)
  {
    var all := f.Owes(err == None, input);
    assert g.mid(given) <= g.mid(all) && g.mid(all) <= g.full(all);
  }

  /* ---- Without filters ---- */

  /** What pump.all returns, and what the sink then has, and whether it was told that this is all. */
  datatype Delivery = Delivery(err: Option<string>, got: ByteString, ended: bool)

  function Direct(chunks: seq<ByteString>, srcErr: Option<string>, patience: Option<nat>, why: Option<string>): Delivery
    decreases chunks
  {
    if patience == Some(0) then Delivery(if chunks == [] && srcErr.Some? then srcErr else why, [], false)
    else if chunks == [] then Delivery(srcErr, [], true)
    else
      var d := Direct(chunks[1..], srcErr, Less(patience, 1), why);
      d.(got := chunks[0] + d.got)
  }

  function Less(patience: Option<nat>, n: nat): Option<nat> {
    if patience.Some? then Some(if n <= patience.value then patience.value - n else 0) else None
  }

  /** pump.all from a source to a sink, with pump.step in its loop. */
  method PumpDirect(src: Source, snk: Sink) returns (err: Option<string>)
    requires snk.Valid() && snk.puts == 0 && !snk.refused
    modifies src, snk
    ensures snk.Valid() && Delivery(err, snk.got, snk.ended) == Direct(old(src.chunks), src.err, snk.patience, snk.why)
  {
    ghost var total := Direct(src.chunks, src.err, snk.patience, snk.why);
    assert snk.got + total.got == total.got;
    while true
      invariant snk.Valid() && !snk.ended
      invariant var d := Direct(src.chunks, src.err, Less(snk.patience, snk.puts), snk.why);
        total == d.(got := snk.got + d.got)
      decreases |src.chunks|
    {
      ghost var had, d := snk.got, Direct(src.chunks, src.err, Less(snk.patience, snk.puts), snk.why);
      var chunk, srcErr := src.Next();
      var ret, snkErr := snk.Put(chunk, srcErr);
      if !chunk.Some? || !ret {
        assert had + [] == had;
        return if srcErr.Some? then srcErr else snkErr;
      }
      Assoc(had, chunk.value, Direct(src.chunks, src.err, Less(snk.patience, snk.puts), snk.why).got);
    }
  }

  /** A refusal ends the pumping: with the sink's error, unless the source has ended with an error of its own; and a sink
      that takes everything leaves only that. */
  lemma WhoseError(chunks: seq<ByteString>, srcErr: Option<string>, why: Option<string>)
    ensures chunks != [] ==> Direct(chunks, srcErr, Some(0), why) == Delivery(why, [], false)
    ensures Direct([], srcErr, Some(0), why) == Delivery(if srcErr.Some? then srcErr else why, [], false)
    ensures Direct([], srcErr, None, why) == Delivery(srcErr, [], true)
    ensures chunks != [] ==>
      var d := Direct(chunks[1..], srcErr, None, why);
      Direct(chunks, srcErr, None, why) == d.(got := chunks[0] + d.got)
  {
  }

  lemma {:induction false} Patient(chunks: seq<ByteString>, srcErr: Option<string>, patience: Option<nat>, why: Option<string>)
    requires patience == None || why != None
    ensures var d := Direct(chunks, srcErr, patience, why);
      d.err == None ==> d == Delivery(None, Concat(chunks), true) && srcErr == None
    decreases chunks
  {
    if chunks != [] {
      Patient(chunks[1..], srcErr, Less(patience, 1), why);
    }
  }

  function Zeros(n: nat): seq<ByteString> {
    if n == 0 then [] else [[0]] + Zeros(n - 1)
  }

  /** A sink that refuses the call after n others, and gives no error, loses what comes then, and nobody is told. */
  lemma {:induction false} SilentLoss(n: nat)
    ensures var chunks := Zeros(n + 1);
      var d := Direct(chunks, None, Some(n), None);
      d.err == None && !d.ended && |d.got| == n < |Concat(chunks)|
  {
    var chunks := Zeros(n + 1);
    assert chunks[1..] == Zeros(n);
    if n > 0 {
      SilentLoss(n - 1);
    }
  }

  /** That success means full delivery, whatever the source, holds exactly for the sinks that never refuse and those
      that refuse with an error. */
  lemma ReliableIff(patience: Option<nat>, why: Option<string>)
    ensures (forall chunks, srcErr {:trigger Direct(chunks, srcErr, patience, why)} ::
               var d := Direct(chunks, srcErr, patience, why);
               d.err == None ==> d.got == Concat(chunks) && d.ended)
            <==> patience == None || why != None
  {
    if patience == None || why != None {
      forall chunks, srcErr
        ensures var d := Direct(chunks, srcErr, patience, why); d.err == None ==> d.got == Concat(chunks) && d.ended
      {
        Patient(chunks, srcErr, patience, why);
      }
    } else {
      SilentLoss(patience.value);
      assert !Direct(Zeros(patience.value + 1), None, patience, why).ended;
    }
  }
}
