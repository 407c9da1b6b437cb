/** Buffered input and output over a transport (c/socket/buffer.c), and the loops that retry after a timeout
    (socket/platform.lua:90-152). */
module BufferedStream {
  import opened Bytes
  import opened StreamModel

  class Stream {
    const data: array<Byte>
    var first: nat
    var last: nat
    var received: nat
    var sent: nat
    /** The results the transport is going to give; when there are no more, the connection is closed. */
    var incoming: seq<Received>
    var accepts: seq<Accepted>
    /** Bytes taken from the transport, and bytes given to it. */
    ghost var taken: nat
    ghost var emitted: ByteString

    ghost predicate Valid()
      reads this, data
    {
      && data.Length == BUF_SIZE && first <= last <= BUF_SIZE && (first == last ==> first == 0)
      && AllReceived(incoming) && AllAccepted(accepts)
      && received + (last - first) == taken
    }

    /** What there is to be read, in the buffer and from the transport. */
    ghost function Now(): Feed
      requires Valid()
      reads this, data
    {
      FeedOf(data[first..last], incoming)
    }

    constructor (incoming: seq<Received>, accepts: seq<Accepted>)
      requires AllReceived(incoming) && AllAccepted(accepts)
      ensures Valid() && fresh(this) && fresh(data) && Now() == FeedOf([], incoming) && taken == 0 && emitted == []
      ensures this.accepts == accepts
    {
      data := new Byte[BUF_SIZE];
      first, last, received, sent, taken, emitted := 0, 0, 0, 0, 0, [];
      this.incoming, this.accepts := incoming, accepts;
      new;
      assert data[first..last] == [];
    }

    /** The transport's recv, into the empty buffer. */
    method IoRecv() returns (err: Io, got: nat)
      requires Valid() && first == last
      modifies this`incoming, this`taken, data
      ensures AllReceived(incoming) && taken == old(taken) + got
      ensures incoming == if old(incoming) == [] then [] else old(incoming)[1..]
      ensures old(incoming) == [] ==> err == Closed && got == 0
      ensures old(incoming) != [] ==>
        match old(incoming)[0]
        case Data(bytes) => err == Done && 0 < got <= BUF_SIZE && data[..got] == bytes
        case NoData(io) => err == io && got == 0
    {
      if incoming == [] {
        return Closed, 0;
      }
      assert GoodReceived(incoming[0]);
      match incoming[0] {
        case Data(bytes) =>
          for i := 0 to |bytes|
            modifies data
            invariant data[..i] == bytes[..i]
          {
            data[i] := bytes[i];
          }
          err, got := Done, |bytes|;
          taken := taken + |bytes|;
        case NoData(io) => err, got := io, 0;
      }
      incoming := incoming[1..];
    }

    /** buffer_get: what is in the buffer, filled first if it is empty. */
    method BufferGet() returns (err: Io, count: nat)
      requires Valid()
      modifies this`first, this`last, this`incoming, this`taken, data
      ensures Valid() && count == last - first <= |Now().ready| && received == old(received)
      ensures old(Now().ready) != [] ==> err == Done && count > 0 && Now() == old(Now())
      ensures old(Now().ready) == [] ==>
        err == old(Now().why) && err != Done && count == 0 && Now() == FeedOf([], old(Now().after))
    {
      FeedFails(data[first..last], incoming);
      FeedGrows([], data[first..last], incoming);
      err := Done;
      if first >= last {
        assert data[first..last] == [];
        var got;
        if incoming != [] && incoming[0].Data? {
          FeedGrows([], [] + incoming[0].bytes, incoming[1..]);
        }
        err, got := IoRecv();
        first, last := 0, got;
        assert got > 0 ==> [] + data[first..last] == data[first..last];
      }
      count := last - first;
      FeedGrows([], data[first..last], incoming);
    }

    /** buffer_skip */
    method BufferSkip(count: nat)
      requires Valid() && count <= last - first
      modifies this`first, this`last, this`received
      ensures Valid() && received == old(received) + count && last - first == old(last - first) - count
      ensures count <= |old(Now().ready)| && old(data[first..first + count]) == old(Now().ready)[..count]
      ensures Now() == if count == 0 then old(Now()) else old(Now()).(ready := old(Now().ready)[count..])
    {
      assert data[first..last] == data[first..first + count] + data[first + count..last];
      FeedGrows(data[first..first + count], data[first + count..last], incoming);
      received := received + count;
      first := first + count;
      if first >= last { first, last := 0, 0; }
      assert data[first..last] == old(data[first + count..last]);
    }

    /** recvraw */
    method RecvRaw(wanted: nat) returns (err: Io, raw: ByteString)
      requires Valid()
      modifies this`first, this`last, this`received, this`incoming, this`taken, data
      ensures Valid() && received == old(received) + |raw|
      ensures Outcome(err, raw, Now()) == Call(Count(wanted), old(Now()))
    {
      hide FeedOf, Reading;
      ghost var f := Now();
      NothingRead(f);
      err, raw := Done, [];
      while err == Done
        invariant Valid() && received == old(received) + |raw| && Reading(f, err, raw, Now())
        invariant |raw| < wanted || (wanted == 0 && raw == [])
        decreases wanted - |raw|, if err == Done then 1 else 0
      {
        ghost var g := Now();
        var count;
        err, count := BufferGet();
        count := if count < wanted - |raw| then count else wanted - |raw|;
        var piece := data[first..first + count];
        BufferSkip(count);
        Round(f, raw, g, err, count, Now());
        raw := raw + piece;
        if |raw| >= wanted { break; }
      }
      HasRead(f, err, raw, Now());
    }

    /** recvall: everything up to the end of the connection; other failures are passed on with what was read. */
    method RecvAll() returns (err: Io, raw: ByteString)
      requires Valid()
      modifies this`first, this`last, this`received, this`incoming, this`taken, data
      ensures Valid() && received == old(received) + |raw|
      ensures Outcome(err, raw, Now()) == Call(All, old(Now()))
    {
      hide FeedOf, Reading;
      ghost var f := Now();
      FeedFails(data[first..last], incoming);
      NothingRead(f);
      err, raw := Done, [];
      while err == Done
        invariant Valid() && received == old(received) + |raw| && Reading(f, err, raw, Now())
        decreases |f.ready| - |raw|, if err == Done then 1 else 0
      {
        ghost var g := Now();
        var count;
        err, count := BufferGet();
        var piece := data[first..first + count];
        BufferSkip(count);
        Round(f, raw, g, err, count, Now());
        raw := raw + piece;
      }
      HasRead(f, err, raw, Now());
      if err == Closed && |raw| > 0 { err := Done; }
    }

    /** The inner loop of recvline: up to a line feed or the end of what is in the buffer. */
    method ScanLine(count: nat, line: ByteString) returns (pos: nat, line': ByteString)
      requires Valid() && count == last - first
      ensures pos <= count && (pos < count ==> data[first + pos] == LF)
      ensures LF !in data[first..first + pos]
      ensures line' == line + WithoutCr(data[first..first + pos])
    {
      pos, line' := 0, line;
      assert data[first..first] == [];
      assert line + [] == line;
      while pos < count && data[first + pos] != LF
        invariant pos <= count && LF !in data[first..first + pos]
        invariant line' == line + WithoutCr(data[first..first + pos])
      {
        var c := data[first + pos];
        assert data[first..first + pos + 1] == data[first..first + pos] + [c];
        WithoutCrAppend(data[first..first + pos], [c]);
        assert WithoutCr([c]) == if c == CR then [] else [c];
        if c != CR { line' := line' + [c]; }
        pos := pos + 1;
      }
    }

    /** One round of recvline: the next piece, and its line feed if it has been reached. */
    method ReadPiece(line: ByteString, ghost f: Feed, ghost raw: ByteString)
      returns (err: Io, found: bool, line': ByteString, ghost raw': ByteString)
      requires Valid() && Reading(f, Done, raw, Now()) && LF !in raw && line == WithoutCr(raw)
      modifies this`first, this`last, this`received, this`incoming, this`taken, data
      ensures Valid() && received == old(received) + |raw'| - |raw| && Reading(f, err, raw', Now())
      ensures found ==> EndsLine(raw') && err == Done && line' == Text(Line, raw', true)
      ensures !found ==> LF !in raw' && line' == WithoutCr(raw') && (err == Done ==> |raw| < |raw'| <= |f.ready|)
    {
      hide WithoutCr, FeedOf, Reading;
      ghost var g := Now();
      var count, pos;
      err, count := BufferGet();
      pos, line' := ScanLine(count, line);
      ghost var piece := data[first..first + pos];
      WithoutCrAppend(raw, piece);
      found := pos < count;
      if found {
        assert data[first..first + pos + 1] == piece + [LF];
        Assoc(raw, piece, [LF]);
        pos := pos + 1;
      }
      BufferSkip(pos);
      Round(f, raw, g, err, pos, Now());
      HasRead(f, err, raw + g.ready[..pos], Now());
      raw' := raw + g.ready[..pos];
    }

    /** recvline; raw is what it read, of which it leaves out the CRs and the line feed at the end. */
    method RecvLine() returns (err: Io, line: ByteString, ghost raw: ByteString)
      requires Valid()
      modifies this`first, this`last, this`received, this`incoming, this`taken, data
      ensures Valid() && received == old(received) + |raw|
      ensures Outcome(err, raw, Now()) == Call(Line, old(Now())) && line == Text(Line, raw, err == Done)
    {
      hide WithoutCr, FeedOf, LineLength, Reading;
      ghost var f := Now();
      FeedFails(data[first..last], incoming);
      NothingRead(f);
      err, line, raw := Done, [], [];
      assert WithoutCr([]) == [] by { NothingWithout(); }
      while err == Done
        invariant Valid() && received == old(received) + |raw| && Reading(f, err, raw, Now())
        invariant LF !in raw && line == WithoutCr(raw) && |raw| <= |f.ready|
        decreases |f.ready| - |raw|, if err == Done then 1 else 0
      {
        var found;
        err, found, line, raw := ReadPiece(line, f, raw);
        HasRead(f, err, raw, Now());
        if found {
          LineEnds(f.ready, raw);
          return;
        }
      }
      HasRead(f, err, raw, Now());
    }

    /** receive, without a prefix. */
    method Receive(pattern: Pattern) returns (err: Io, text: ByteString, ghost raw: ByteString)
      requires Valid() && !pattern.Any?
      modifies this`first, this`last, this`received, this`incoming, this`taken, data
      ensures Valid() && received == old(received) + |raw|
      ensures Outcome(err, raw, Now()) == Call(pattern, old(Now())) && text == Text(pattern, raw, err == Done)
    {
      match pattern {
        case Line => err, text, raw := RecvLine();
        case All => err, text := RecvAll(); raw := text;
        case Count(n) => err, text := RecvRaw(n); raw := text;
      }
    }

    /** newtcp.receive: after a timeout it waits until the socket can be read and goes on, with what is still missing.
        waits says, for each wait, whether it fails. */
    method TcpReceive(pattern: Pattern, prefix: Option<ByteString>, waits: seq<Option<string>>)
      returns (reply: Reply, ghost raw: ByteString)
      requires Valid()
      modifies this`first, this`last, this`received, this`incoming, this`taken, data
      ensures Valid() && received == old(received) + |raw|
      ensures var r := Retried(pattern, old(Now()), waits);
        && raw == r.raw && Now() == r.left
        && reply == ReplyFor(pattern, prefix, r)
    {
      hide Gathered, Concat, Retried, Text, FeedOf, Call, Onward;
      var buffer := if prefix.Some? then [prefix.value] else [];
      var p := pattern;
      raw := [];
      ghost var total := Retried(pattern, Now(), waits);
      Nothing(pattern, prefix, total);
      assert waits[0..] == waits;
      var i := 0;
      while true
        invariant i <= |waits| && Valid() && received == old(received) + |raw|
        invariant p == pattern || (p.Count? && pattern.Count?)
        invariant total == Onward(raw, Retried(p, Now(), waits[i..]))
        invariant Gathered(buffer, prefix, Text(pattern, raw, false))
        decreases |waits| - i
      {
        ghost var f := Now();
        FeedFails(data[first..last], incoming);
        var err, v;
        ghost var piece;
        err, v, piece := Receive(if p.Any? then All else p);
        OneRound(p, f, waits[i..], raw);
        Joining(pattern, p, f, raw, piece, v);
        Gathering(buffer, prefix, Text(pattern, raw, false), v);
        if |v| > 0 { buffer := buffer + [v]; }
        raw := raw + piece;
        Shown(buffer, prefix, Text(pattern, raw, err == Done));
        if err == Done { return Success(Concat(buffer)), raw; }
        if err != Timeout { return Failure(Failed(err), if buffer != [] then Some(Concat(buffer)) else None), raw; }
        if pattern.Any? && |v| > 0 { return Success(Concat(buffer)), raw; }
        if p.Count? && |v| > 0 { p := Count(p.n - |v|); }
        var waited := if i < |waits| then waits[i] else Some("timeout");
        if waited.Some? {
          return Failure(Waiting(waited.value), if buffer != [] then Some(Concat(buffer)) else None), raw;
        }
        assert waits[i..][1..] == waits[i + 1..];
        i := i + 1;
      }
    }

    /** The transport's send: it takes some of the bytes, from the start, or fails and takes none. */
    method IoSend(bytes: ByteString) returns (err: Io, done: nat)
      requires Valid() && bytes != []
      modifies this`accepts, this`emitted
      ensures Valid() && done <= |bytes| && emitted == old(emitted) + bytes[..done]
      ensures accepts == if old(accepts) == [] then [] else old(accepts)[1..]
      ensures old(accepts) == [] ==> err == Closed && done == 0
      ensures old(accepts) != [] ==>
        match old(accepts)[0]
        case Takes(count) => err == Done && done == Smallest(count, |bytes|)
        case Refuses(io) => err == io && done == 0
    {
      err, done := Closed, 0;
      if accepts != [] {
        match accepts[0] {
          case Takes(count) => err, done := Done, Smallest(count, |bytes|);
          case Refuses(io) => err := io;
        }
        accepts := accepts[1..];
      }
      emitted := emitted + bytes[..done];
    }

    /** sendraw: a block of data, in steps. */
    method SendRaw(bytes: ByteString) returns (err: Io, total: nat)
      requires Valid()
      modifies this`accepts, this`emitted, this`sent
      ensures Valid() && Progress(err, total, accepts) == Sent(|bytes|, old(accepts))
      ensures emitted == old(emitted) + bytes[..total] && sent == old(sent) + total
    {
      hide Sent;
      err, total := Done, 0;
      ghost var all := Sent(|bytes|, accepts);
      while total < |bytes| && err == Done
        invariant Valid() && total <= |bytes| && emitted == old(emitted) + bytes[..total] && sent == old(sent)
        invariant all == if err == Done then Onwards(total, Sent(|bytes| - total, accepts)) else Progress(err, total, accepts)
        decreases |bytes| - total, if err == Done then 1 else 0
      {
        OneSend(|bytes| - total, total, accepts);
        var step := Smallest(|bytes| - total, STEPSIZE);
        var done;
        err, done := IoSend(bytes[total..total + step]);
        Piecewise(bytes, total, step, done);
        Assoc(old(emitted), bytes[..total], bytes[total..total + step][..done]);
        total := total + done;
      }
      OneSend(0, total, accepts);
      sent := sent + total;
    }

    method Indices(size: nat, i: int, j: int) returns (start: int, end: int)
      ensures start == Start(i, size) && end == End(j, size)
    {
      start, end := i, j;
      if start < 0 { start := size + start + 1; }
      if end < 0 { end := size + end + 1; }
      if start < 1 { start := 1; }
      if end > size { end := size; }
    }

    /** send: data from index i to index j, both counted from 1, or from the end when negative. */
    method Send(bytes: ByteString, i: int, j: int) returns (err: Io, lastIndex: int)
      requires Valid()
      modifies this`accepts, this`emitted, this`sent
      ensures Valid()
      ensures var p := Sent(SizeOf(bytes, i, j), old(accepts));
        && err == p.err && accepts == p.left && sent == old(sent) + p.total
        && lastIndex == Start(i, |bytes|) - 1 + p.total
        && emitted == old(emitted) + From(bytes, Start(i, |bytes|), p.total)
    {
      hide Start, End, From;
      var start, end := Indices(|bytes|, i, j);
      err := Done;
      var total := 0;
      if start <= end {
        err, total := SendRaw(bytes[start - 1..end]);
        Block(bytes, start, end, total);
      } else {
        Block(bytes, start, start - 1, 0);
        assert emitted + [] == emitted;
      }
      return err, total + start - 1;
    }

    /** newtcp.send: without failure, data from index i to index j, and all of it when there are no indices. */
    method TcpSend(bytes: ByteString, i: Option<int>, j: Option<int>, waits: seq<Option<string>>)
      returns (failure: Option<Why>, lastIndex: int)
      requires Valid()
      modifies this`accepts, this`emitted, this`sent
      ensures Valid()
      ensures var from, upto := OrElse(i, 1), OrElse(j, -1);
        var r := Reposted(SizeOf(bytes, from, upto), old(accepts), waits);
        && failure == r.why && accepts == r.left && sent == old(sent) + r.total
        && lastIndex == Start(from, |bytes|) - 1 + r.total
        && emitted == old(emitted) + From(bytes, Start(from, |bytes|), r.total)
      ensures i == None && j == None ==> 0 <= lastIndex <= |bytes| && emitted == old(emitted) + bytes[..lastIndex]
      ensures i == None && j == None && failure == None ==> lastIndex == |bytes| && emitted == old(emitted) + bytes
      ensures i.Some? && j.Some? && 1 <= i.value <= j.value <= |bytes| && failure == None ==>
        lastIndex == j.value && emitted == old(emitted) + bytes[i.value - 1..j.value]
    {
      hide Start, End, From, SizeOf, Reposted;
      ghost var size, was := SizeOf(bytes, OrElse(i, 1), OrElse(j, -1)), accepts;
      failure, lastIndex := SendOn(bytes, OrElse(i, 1), OrElse(j, -1), waits);
      ghost var r := Reposted(size, was, waits);
      SendIff(size, was, waits);
      NoMore(size, was, waits);
      if i == None && j == None {
        WholeString(bytes, 0);
        WholeString(bytes, r.total);
        assert bytes[..|bytes|] == bytes;
      }
      if i.Some? && j.Some? && 1 <= i.value <= j.value <= |bytes| {
        Range(bytes, i.value, j.value, 0);
      }
    }

    /** Its loop: after a timeout it waits until the socket can be written and goes on behind the last byte sent. */
    method SendOn(bytes: ByteString, from: int, upto: int, waits: seq<Option<string>>)
      returns (failure: Option<Why>, lastIndex: int)
      requires Valid()
      modifies this`accepts, this`emitted, this`sent
      ensures Valid()
      ensures var r := Reposted(SizeOf(bytes, from, upto), old(accepts), waits);
        && failure == r.why && accepts == r.left && sent == old(sent) + r.total
        && lastIndex == Start(from, |bytes|) - 1 + r.total
        && emitted == old(emitted) + From(bytes, Start(from, |bytes|), r.total)
    {
      hide Start, End, From, SizeOf, Sent;
      ghost var start, size, all := Start(from, |bytes|), SizeOf(bytes, from, upto), Reposted(SizeOf(bytes, from, upto), accepts, waits);
      ghost var k: nat := 0;
      lastIndex := from - 1;
      var err;
      var w := 0;
      AtFirst(bytes, from, upto);
      assert waits[0..] == waits && emitted + [] == emitted;
      while true
        invariant Valid() && w <= |waits| && k <= size && sent == old(sent) + k
        invariant Start(lastIndex + 1, |bytes|) == start + k && SizeOf(bytes, lastIndex + 1, upto) == size - k
        invariant var r := Reposted(size - k, accepts, waits[w..]); all == r.(total := k + r.total)
        invariant emitted == old(emitted) + From(bytes, start, k)
        decreases |waits| - w
      {
        ghost var p := Sent(size - k, accepts);
        ghost var again := lastIndex + 1;
        err, lastIndex := Send(bytes, lastIndex + 1, upto);
        GoingOn(bytes, from, upto, again, k, p.total);
        Assoc(old(emitted), From(bytes, start, k), From(bytes, start + k, p.total));
        k := k + p.total;
        if err == Done { return None, lastIndex; }
        if err != Timeout { return Some(Failed(err)), lastIndex; }
        var waited := if w < |waits| then waits[w] else Some("timeout");
        if waited.Some? { return Some(Waiting(waited.value)), lastIndex; }
        assert waits[w..][1..] == waits[w + 1..];
        w := w + 1;
      }
    }
  }

  function OrElse(i: Option<int>, default: int): int {
    if i.Some? then i.value else default
  }

  /** The first and the last index that i and j stand for, and how many bytes they enclose. */
  function Start(i: int, size: nat): (s: int)
    ensures s >= 1
  {
    var s := if i < 0 then size + i + 1 else i;
    if s < 1 then 1 else s
  }

  function End(j: int, size: nat): (e: int)
    ensures e <= size
  {
    var e := if j < 0 then size + j + 1 else j;
    if e > size then size else e
  }

  function SizeOf(bytes: ByteString, i: int, j: int): nat {
    var start, end := Start(i, |bytes|), End(j, |bytes|);
    if start <= end then end - start + 1 else 0
  }

  /** n bytes from index `start`, counted from 1. */
  function From(bytes: ByteString, start: int, n: nat): ByteString {
    if n > 0 && 1 <= start && start - 1 + n <= |bytes| then bytes[start - 1..start - 1 + n] else []
  }

  lemma Piecewise(bytes: ByteString, total: nat, step: nat, done: nat)
    requires done <= step && total + step <= |bytes|
    ensures bytes[..total] + bytes[total..total + step][..done] == bytes[..total + done]
  {
  }

  function Onwards(total: nat, p: Progress): Progress {
    p.(total := total + p.total)
  }

  /** One call of the transport's send, when total bytes have been sent before. */
  lemma OneSend(size: nat, total: nat, accepts: seq<Accepted>)
    requires AllAccepted(accepts)
    ensures var all := Onwards(total, Sent(size, accepts));
      if size == 0 then all == Progress(Done, total, accepts)
      else if accepts == [] then all == Progress(Closed, total, [])
      else match accepts[0]
           case Refuses(io) => io != Done && all == Progress(io, total, accepts[1..])
           case Takes(count) =>
             var d := Smallest(count, Smallest(size, STEPSIZE));
             0 < d <= size && all == Onwards(total + d, Sent(size - d, accepts[1..]))
  {
    assert accepts != [] ==> GoodAccepted(accepts[0]);
  }

  /* ---- Which bytes that is ---- */

  /** Index i of a string, counted from 1, or from the end when it is negative: -1 is the last byte. */
  lemma NegativeIndex(bytes: ByteString, k: int)
    requires 1 <= k <= |bytes|
    ensures Start(-k, |bytes|) == |bytes| - k + 1 == End(-k, |bytes|)
    ensures Start(-1, |bytes|) == |bytes| == End(-1, |bytes|)
  {
  }

  /** From the i-th byte to the j-th, and the first n of these. */
  lemma Range(bytes: ByteString, i: int, j: int, n: nat)
    requires 1 <= i <= j <= |bytes| && n <= j - i + 1
    ensures Start(i, |bytes|) == i && SizeOf(bytes, i, j) == j - i + 1
    ensures From(bytes, i, j - i + 1) == bytes[i - 1..j] && From(bytes, i, n) == bytes[i - 1..i - 1 + n]
  {
  }

  /** Without indices it is the whole string. */
  lemma WholeString(bytes: ByteString, n: nat)
    requires n <= |bytes|
    ensures Start(1, |bytes|) == 1 && SizeOf(bytes, 1, -1) == |bytes|
    ensures From(bytes, 1, n) == bytes[..n] && From(bytes, 1, |bytes|) == bytes
  {
    assert bytes[0..|bytes|] == bytes;
  }

  /** Indices outside are moved to the ends; an empty range is empty. */
  lemma OutsideRange(bytes: ByteString, i: int, j: int)
    ensures i == 0 || i < -|bytes| ==> Start(i, |bytes|) == 1
    ensures j > |bytes| ==> End(j, |bytes|) == |bytes|
    ensures 0 <= j < i || i > |bytes| >= 0 || j == 0 || j < -|bytes| ==> SizeOf(bytes, i, j) == 0
  {
  }

  lemma AtFirst(bytes: ByteString, from: int, upto: int)
    ensures From(bytes, Start(from, |bytes|), 0) == []
  {
  }

  lemma Block(bytes: ByteString, start: int, end: int, n: nat)
    requires 1 <= start <= end + 1 && start - 1 + n <= end && (n > 0 ==> end <= |bytes|)
    ensures n == 0 ==> From(bytes, start, n) == []
    ensures end <= |bytes| ==> bytes[start - 1..end][..n] == From(bytes, start, n)
  {
  }

  lemma Joined(bytes: ByteString, start: int, k: nat, n: nat)
    requires 1 <= start && (k + n > 0 ==> start - 1 + k + n <= |bytes|)
    ensures From(bytes, start, k) + From(bytes, start + k, n) == From(bytes, start, k + n)
  {
  }

  /** Behind the last byte sent the rest begins. */
  lemma GoingOn(bytes: ByteString, from: int, upto: int, i: int, k: nat, n: nat)
    requires var start, size := Start(from, |bytes|), SizeOf(bytes, from, upto);
      k + n <= size && Start(i, |bytes|) == start + k && SizeOf(bytes, i, upto) == size - k
    ensures var start, size := Start(from, |bytes|), SizeOf(bytes, from, upto);
      && From(bytes, start, k) + From(bytes, start + k, n) == From(bytes, start, k + n)
      && Start(start + k + n, |bytes|) == start + k + n && SizeOf(bytes, start + k + n, upto) == size - (k + n)
  {
    hide From;
    Joined(bytes, Start(from, |bytes|), k, n);
  }

  /** Before a failure, raw has been read of what there was in f, and g is what is left; after it, everything, and the
      failure is the one behind it. */
  predicate Reading(f: Feed, err: Io, raw: ByteString, g: Feed) {
    if err == Done then raw <= f.ready && g == f.(ready := f.ready[|raw|..])
    else raw == f.ready && err == f.why && g == FeedOf([], f.after)
  }

  lemma NothingRead(f: Feed)
    ensures Reading(f, Done, [], f)
  {
  }

  lemma HasRead(f: Feed, err: Io, raw: ByteString, g: Feed)
    requires Reading(f, err, raw, g)
    ensures raw <= f.ready
    ensures if err == Done then Outcome(err, raw, g) == Took(f, |raw|) else Outcome(err, raw, g) == Failing(f)
  {
  }

  /** The next piece of what is in the buffer has been read, or there was none. */
  lemma Round(f: Feed, raw: ByteString, g: Feed, err: Io, n: nat, h: Feed)
    requires Reading(f, Done, raw, g) && n <= |g.ready|
    requires if err == Done then h == (if n == 0 then g else g.(ready := g.ready[n..]))
             else g.ready == [] && err == g.why && h == FeedOf([], g.after)
    ensures |raw| + |g.ready| == |f.ready|
    ensures Reading(f, err, raw + g.ready[..n], h)
  {
  }

  lemma NothingWithout()
    ensures WithoutCr([]) == []
  {
  }

  predicate EndsLine(line: ByteString) {
    line != [] && line[|line| - 1] == LF && LF !in line[..|line| - 1]
  }

  lemma LineEnds(s: ByteString, line: ByteString)
    requires line <= s && EndsLine(line)
    ensures LF in s && LineLength(s) == |line|
  {
    var n, k := |line|, LineLength(s);
    assert s[n - 1] == LF;
    assert forall i :: 0 <= i < n - 1 ==> line[..n - 1][i] == s[i];
    assert forall i :: 0 <= i < k - 1 ==> s[..k - 1][i] == s[i];
  }

  datatype Reply = Success(text: ByteString) | Failure(why: Why, part: Option<ByteString>)

  /** What is returned: the text behind the prefix, or the failure with what was read until then. */
  function ReplyFor(pattern: Pattern, prefix: Option<ByteString>, r: Final): Reply {
    if r.why == None then Success(Prefix(prefix) + Text(pattern, r.raw, true))
    else Failure(r.why.value, Part(prefix, Text(pattern, r.raw, false)))
  }

  /** Counts, "*a" and "*" return the bytes as they came, behind the prefix; a failure without any returns none. */
  lemma PlainReply(pattern: Pattern, raw: ByteString, left: Feed, why: Why, prefix: ByteString)
    requires !pattern.Line?
    ensures ReplyFor(pattern, None, Final(None, raw, left)) == Success(raw)
    ensures ReplyFor(pattern, Some(prefix), Final(None, raw, left)) == Success(prefix + raw)
    ensures ReplyFor(pattern, None, Final(Some(why), raw, left)) == Failure(why, if raw == [] then None else Some(raw))
    ensures ReplyFor(pattern, Some(prefix), Final(Some(why), raw, left)) == Failure(why, Some(prefix + raw))
  {
    assert [] + raw == raw;
  }

  /** A line is returned without its end, LF or CRLF, and without any other CR. */
  lemma LineReply(line: ByteString, left: Feed, why: Why)
    requires CR !in line
    ensures ReplyFor(Line, None, Final(None, line + [LF], left)) == Success(line)
    ensures ReplyFor(Line, None, Final(None, line + [CR, LF], left)) == Success(line)
    ensures ReplyFor(Line, None, Final(Some(why), line, left)) == Failure(why, if line == [] then None else Some(line))
    ensures ReplyFor(Line, None, Final(Some(why), line + [CR], left)) == Failure(why, if line == [] then None else Some(line))
  {
    CrsGone(line);
    CrsGone([CR]);
    WithoutCrAppend(line, [CR]);
    assert (line + [LF])[..|line + [LF]| - 1] == line && line + [CR, LF] == line + [CR] + [LF];
    assert (line + [CR] + [LF])[..|line + [CR, LF]| - 1] == line + [CR];
    assert line + [] == line && [] + line == line;
  }

  lemma {:induction false} CrsGone(s: ByteString)
    ensures CR !in WithoutCr(s) && (CR !in s ==> WithoutCr(s) == s)
    ensures s == [CR] ==> WithoutCr(s) == []
  {
    if s != [] {
      CrsGone(s[1..]);
    }
  }

  /** What was read before, and what comes to it. */
  function Onward(raw: ByteString, r: Final): Final {
    r.(raw := raw + r.raw)
  }

  function Prefix(prefix: Option<ByteString>): ByteString {
    if prefix.Some? then prefix.value else []
  }

  /** The partial result of a failure: none when there is nothing to show. */
  function Part(prefix: Option<ByteString>, made: ByteString): Option<ByteString> {
    if prefix == None && made == [] then None else Some(Prefix(prefix) + made)
  }

  /** The table of strings to be concatenated. */
  predicate Gathered(buffer: seq<ByteString>, prefix: Option<ByteString>, made: ByteString) {
    Concat(buffer) == Prefix(prefix) + made && (buffer == [] <==> prefix == None && made == [])
  }

  lemma Shown(buffer: seq<ByteString>, prefix: Option<ByteString>, made: ByteString)
    requires Gathered(buffer, prefix, made)
    ensures Concat(buffer) == Prefix(prefix) + made
    ensures Part(prefix, made) == if buffer != [] then Some(Concat(buffer)) else None
  {
  }

  lemma Gathering(buffer: seq<ByteString>, prefix: Option<ByteString>, made: ByteString, v: ByteString)
    requires Gathered(buffer, prefix, made)
    ensures Gathered(if |v| > 0 then buffer + [v] else buffer, prefix, made + v)
  {
    ConcatAppend(buffer, [v]);
    assert Concat([v]) == v + [];
    Assoc(Prefix(prefix), made, v);
    if |v| == 0 {
      assert made + v == made;
    }
  }

  lemma Nothing(pattern: Pattern, prefix: Option<ByteString>, total: Final)
    ensures Gathered(if prefix.Some? then [prefix.value] else [], prefix, Text(pattern, [], false))
    ensures Onward([], total) == total
  {
    assert Text(pattern, [], false) == [];
    assert [] + total.raw == total.raw;
    if prefix.Some? {
      assert Concat([prefix.value]) == prefix.value + [];
    }
  }

  /** One round of the loop, when raw has been read before. */
  lemma OneRound(p: Pattern, f: Feed, waits: seq<Option<string>>, raw: ByteString)
    ensures var o, r := Call(p, f), Onward(raw, Retried(p, f, waits));
      && (o.err == Done || (o.err == Timeout && p.Any? && o.raw != []) ==> r == Final(None, raw + o.raw, o.left))
      && (o.err != Done && o.err != Timeout ==> r == Final(Some(Failed(o.err)), raw + o.raw, o.left))
      && (o.err == Timeout && !(p.Any? && o.raw != []) ==>
            if WaitFails(waits).Some? then r == Final(Some(Waiting(WaitFails(waits).value)), raw + o.raw, o.left)
            else r == Onward(raw + o.raw, Retried(Missing(p, o.raw), o.left, waits[1..])))
    ensures Call(Any, f) == Call(All, f)
  {
    hide Call;
    var o := Call(p, f);
    CallForAny(f);
    if o.err == Timeout && !(p.Any? && o.raw != []) && WaitFails(waits).None? {
      Assoc(raw, o.raw, Retried(Missing(p, o.raw), o.left, waits[1..]).raw);
    }
  }

  lemma CallForAny(f: Feed)
    ensures Call(Any, f) == Call(All, f)
  {
  }

  /** What was read before, and what this round has read. */
  lemma Joining(pattern: Pattern, p: Pattern, f: Feed, raw: ByteString, piece: ByteString, v: ByteString)
    requires p == pattern || (p.Count? && pattern.Count?)
    requires f.why != Done && piece == Call(p, f).raw
    requires v == Text(if p.Any? then All else p, piece, Call(p, f).err == Done)
    ensures Text(pattern, raw + piece, Call(p, f).err == Done) == Text(pattern, raw, false) + v
    ensures !p.Line? ==> v == piece && Text(pattern, raw + piece, true) == Text(pattern, raw + piece, false)
    ensures p.Count? && Call(p, f).err != Done ==> |piece| <= p.n
  {
    hide WithoutCr;
    if pattern.Line? {
      WithoutCrAppend(raw, piece);
      if Call(p, f).err == Done {
        assert (raw + piece)[..|raw + piece| - 1] == raw + piece[..|piece| - 1];
        WithoutCrAppend(raw, piece[..|piece| - 1]);
      }
    }
  }
}
