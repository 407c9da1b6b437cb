/** What reads and writes over a transport come to (c/socket/buffer.c), and what the loops that retry after a timeout
    make of them (socket/platform.lua:90-152), for every list of transport results. */
module StreamModel {
  import opened Bytes

  const BUF_SIZE := 8192
  const STEPSIZE := 8192

  datatype Io = Done | Timeout | Closed | Unknown(message: string)

  /** One result of the transport's recv: some bytes, or a failure, which comes without bytes. */
  datatype Received = Data(bytes: ByteString) | NoData(io: Io)

  /** One result of the transport's send: how many bytes it takes at most, or a failure. */
  datatype Accepted = Takes(count: nat) | Refuses(io: Io)

  predicate GoodReceived(r: Received) {
    match r
    case Data(bytes) => 0 < |bytes| <= BUF_SIZE
    case NoData(io) => io != Done
  }

  predicate GoodAccepted(a: Accepted) {
    match a
    case Takes(count) => count > 0
    case Refuses(io) => io != Done
  }

  predicate AllReceived(incoming: seq<Received>) {
    forall i :: 0 <= i < |incoming| ==> GoodReceived(incoming[i])
  }

  predicate AllAccepted(accepts: seq<Accepted>) {
    forall i :: 0 <= i < |accepts| ==> GoodAccepted(accepts[i])
  }

  datatype Pattern = Count(n: nat) | Line | All | Any

  /* ---- What is there to be read ---- */

  /** The bytes that come before the next failure, that failure, and the results behind it. When there are no more
      results, the connection is closed. */
  datatype Feed = Feed(ready: ByteString, why: Io, after: seq<Received>)

  function FeedOf(buffer: ByteString, incoming: seq<Received>): Feed
    decreases |incoming|
  {
    if incoming == [] then Feed(buffer, Closed, [])
    else match incoming[0]
         case Data(bytes) => FeedOf(buffer + bytes, incoming[1..])
         case NoData(io) => Feed(buffer, io, incoming[1..])
  }

  /** The bytes that a list of results brings. */
  function Brought(results: seq<Received>): ByteString {
    if results == [] then []
    else (if results[0].Data? then results[0].bytes else []) + Brought(results[1..])
  }

  /** All the bytes still to be read. */
  function Pending(f: Feed): ByteString {
    f.ready + Brought(f.after)
  }

  lemma {:induction false} FeedGrows(a: ByteString, b: ByteString, incoming: seq<Received>)
    ensures var f := FeedOf(b, incoming); FeedOf(a + b, incoming) == f.(ready := a + f.ready)
    ensures b <= FeedOf(b, incoming).ready
    decreases |incoming|
  {
    if incoming != [] && incoming[0].Data? {
      var c := incoming[0].bytes;
      Assoc(a, b, c);
      FeedGrows(a, b + c, incoming[1..]);
    }
  }

  lemma {:induction false} FeedPending(buffer: ByteString, incoming: seq<Received>)
    ensures Pending(FeedOf(buffer, incoming)) == buffer + Brought(incoming)
    decreases |incoming|
  {
    if incoming != [] {
      if incoming[0].Data? {
        FeedPending(buffer + incoming[0].bytes, incoming[1..]);
        Assoc(buffer, incoming[0].bytes, Brought(incoming[1..]));
      } else {
        assert Brought(incoming) == Brought(incoming[1..]);
      }
    }
  }

  lemma {:induction false} FeedFails(buffer: ByteString, incoming: seq<Received>)
    requires AllReceived(incoming)
    ensures FeedOf(buffer, incoming).why != Done && AllReceived(FeedOf(buffer, incoming).after)
    decreases |incoming|
  {
    if incoming != [] {
      assert GoodReceived(incoming[0]);
      if incoming[0].Data? {
        FeedFails(buffer + incoming[0].bytes, incoming[1..]);
      }
    }
  }

  /* ---- One call of receive ---- */

  datatype Outcome = Outcome(err: Io, raw: ByteString, left: Feed)

  function Took(f: Feed, n: nat): Outcome
    requires n <= |f.ready|
  {
    Outcome(Done, f.ready[..n], f.(ready := f.ready[n..]))
  }

  function Failing(f: Feed): Outcome {
    Outcome(f.why, f.ready, FeedOf([], f.after))
  }

  /** How long the first line is, with its end. */
  function LineLength(s: ByteString): (n: nat)
    requires LF in s
    ensures 0 < n <= |s| && s[n - 1] == LF && LF !in s[..n - 1]
  {
    if s[0] == LF then 1 else 1 + LineLength(s[1..])
  }

  /** A success takes what was asked for, and no more; a failure takes all the bytes before it. "*a" asks for
      everything up to the end of the connection, but not for nothing. */
  function Call(pattern: Pattern, f: Feed): Outcome {
    match pattern
    case Count(n) => if f.ready != [] && n <= |f.ready| then Took(f, n) else Failing(f)
    case Line => if LF in f.ready then Took(f, LineLength(f.ready)) else Failing(f)
    case _ => if f.ready != [] && f.why == Closed then Failing(f).(err := Done) else Failing(f)
  }

  lemma CallKeepsStream(pattern: Pattern, f: Feed)
    ensures Call(pattern, f).raw + Pending(Call(pattern, f).left) == Pending(f)
  {
    hide Brought, FeedOf, LineLength;
    FeedPending([], f.after);
    var o := Call(pattern, f);
    assert [] + Brought(f.after) == Brought(f.after);
    Parted(f.ready, |o.raw|, Brought(f.after));
  }

  lemma Parted(s: ByteString, n: nat, t: ByteString)
    requires n <= |s|
    ensures s[..n] + (s[n..] + t) == s + t
  {
    assert s[..n] + s[n..] == s;
  }

  function WithoutCr(s: ByteString): ByteString {
    if s == [] then [] else (if s[0] == CR then [] else [s[0]]) + WithoutCr(s[1..])
  }

  lemma {:induction false} WithoutCrAppend(a: ByteString, b: ByteString)
    ensures WithoutCr(a + b) == WithoutCr(a) + WithoutCr(b)
  {
    if a == [] {
      assert a + b == b;
    } else {
      assert (a + b)[1..] == a[1..] + b;
      WithoutCrAppend(a[1..], b);
    }
  }

  /** What is returned for the bytes read: a line comes without CRs, and without its end when that was read. */
  function Text(pattern: Pattern, raw: ByteString, complete: bool): ByteString {
    if !pattern.Line? then raw
    else WithoutCr(if complete && raw != [] then raw[..|raw| - 1] else raw)
  }

  /* ---- Retrying ---- */

  datatype Why = Failed(io: Io) | Waiting(message: string)

  /** Whether the first wait fails; when no more are given, it does. */
  function WaitFails(waits: seq<Option<string>>): Option<string> {
    if waits == [] then Some("timeout") else waits[0]
  }

  /** why is None for a success. */
  datatype Final = Final(why: Option<Why>, raw: ByteString, left: Feed)

  function Missing(pattern: Pattern, raw: ByteString): Pattern {
    if pattern.Count? then Count(if |raw| <= pattern.n then pattern.n - |raw| else 0) else pattern
  }

  /** After a timeout, and if the wait does not fail, what is missing is asked for again; "*" is content with any bytes. */
  function Retried(pattern: Pattern, f: Feed, waits: seq<Option<string>>): Final
    decreases |waits|
  {
    var o := Call(pattern, f);
    if o.err == Done || (o.err == Timeout && pattern.Any? && o.raw != []) then Final(None, o.raw, o.left)
    else if o.err != Timeout then Final(Some(Failed(o.err)), o.raw, o.left)
    else if WaitFails(waits).Some? then Final(Some(Waiting(WaitFails(waits).value)), o.raw, o.left)
    else
      var r := Retried(Missing(pattern, o.raw), o.left, waits[1..]);
      r.(raw := o.raw + r.raw)
  }

  /** Whatever happens, the bytes read and those left are the stream. */
  lemma {:induction false} NothingLost(pattern: Pattern, f: Feed, waits: seq<Option<string>>)
    ensures Retried(pattern, f, waits).raw + Pending(Retried(pattern, f, waits).left) == Pending(f)
    decreases |waits|
  {
    hide Call, Pending;
    var o := Call(pattern, f);
    CallKeepsStream(pattern, f);
    if o.err == Timeout && WaitFails(waits).None? && !(pattern.Any? && o.raw != []) {
      var r := Retried(Missing(pattern, o.raw), o.left, waits[1..]);
      NothingLost(Missing(pattern, o.raw), o.left, waits[1..]);
      Assoc(o.raw, r.raw, Pending(r.left));
    }
  }

  /** What is heard up to the first failure that is not overcome: all the bytes, those since the last timeout, and
      that failure. */
  datatype Heard = Heard(bytes: ByteString, last: ByteString, why: Why)

  function Hears(f: Feed, waits: seq<Option<string>>): Heard
    decreases |waits|
  {
    if f.why != Timeout then Heard(f.ready, f.ready, Failed(f.why))
    else if WaitFails(waits).Some? then Heard(f.ready, f.ready, Waiting(WaitFails(waits).value))
    else var h := Hears(FeedOf([], f.after), waits[1..]); h.(bytes := f.ready + h.bytes)
  }

  /** A count is met exactly when enough bytes are heard, and at least one; it gets the first n of them. */
  lemma {:induction false} CountIff(n: nat, f: Feed, waits: seq<Option<string>>)
    requires f.why != Done && AllReceived(f.after)
    ensures var h, r := Hears(f, waits), Retried(Count(n), f, waits);
      && (r.why == None <==> h.bytes != [] && n <= |h.bytes|)
      && (if r.why == None then r.raw == h.bytes[..n] else r.raw == h.bytes && r.why == Some(h.why))
    decreases |waits|
  {
    hide FeedOf;
    if f.why == Timeout && WaitFails(waits).None? {
      FeedFails([], f.after);
      var k, g := if |f.ready| <= n then n - |f.ready| else 0, FeedOf([], f.after);
      CountIff(k, g, waits[1..]);
      FirstBytes(f.ready, Hears(g, waits[1..]).bytes, n);
    }
  }

  lemma FirstBytes(a: ByteString, b: ByteString, n: nat)
    ensures n <= |a + b| ==> (a + b)[..n] == if n <= |a| then a[..n] else a + b[..n - |a|]
  {
  }

  /** A line is read exactly when its end is heard. */
  lemma {:induction false} LineIff(f: Feed, waits: seq<Option<string>>)
    requires f.why != Done && AllReceived(f.after)
    ensures var h, r := Hears(f, waits), Retried(Line, f, waits);
      && (r.why == None <==> LF in h.bytes)
      && (if r.why == None then r.raw == h.bytes[..LineLength(h.bytes)] else r.raw == h.bytes && r.why == Some(h.why))
    decreases |waits|
  {
    hide FeedOf, LineLength;
    if f.why == Timeout && WaitFails(waits).None? {
      FeedFails([], f.after);
      var g := FeedOf([], f.after);
      LineIff(g, waits[1..]);
      FirstLine(f.ready, Hears(g, waits[1..]).bytes);
    }
  }

  lemma FirstLine(a: ByteString, b: ByteString)
    ensures LF in a + b <==> LF in a || LF in b
    ensures LF in a ==> (a + b)[..LineLength(a + b)] == a[..LineLength(a)]
    ensures LF !in a && LF in b ==> (a + b)[..LineLength(a + b)] == a + b[..LineLength(b)]
  {
    hide LineLength;
    LineOf(a, b);
    if LF in a {
      assert (a + b)[..LineLength(a)] == a[..LineLength(a)];
    } else if LF in b {
      assert (a + b)[..|a| + LineLength(b)] == a + b[..LineLength(b)];
    }
  }

  lemma {:induction false} LineOf(a: ByteString, b: ByteString)
    ensures LF in a ==> LineLength(a + b) == LineLength(a)
    ensures LF !in a && LF in b ==> LineLength(a + b) == |a| + LineLength(b)
    ensures LF in a + b <==> LF in a || LF in b
  {
    if a == [] {
      assert a + b == b;
    } else {
      assert (a + b)[1..] == a[1..] + b;
      LineOf(a[1..], b);
    }
  }

  /** "*a" gets everything heard. It succeeds exactly when the connection is closed and some bytes came since the last
      timeout: a timeout between the last byte and the end makes it fail, with all the bytes as the partial result. */
  lemma {:induction false} AllIff(f: Feed, waits: seq<Option<string>>)
    requires f.why != Done && AllReceived(f.after)
    ensures var h, r := Hears(f, waits), Retried(All, f, waits);
      && (r.why == None <==> h.last != [] && h.why == Failed(Closed))
      && r.raw == h.bytes && (r.why == None || r.why == Some(h.why))
    decreases |waits|
  {
    if f.why == Timeout && WaitFails(waits).None? {
      FeedFails([], f.after);
      AllIff(FeedOf([], f.after), waits[1..]);
    }
  }

  /** One byte, a timeout, the end: "*a" has read it all, and fails. */
  lemma LateEndFails()
    ensures var r := Retried(All, FeedOf([], [Data([65]), NoData(Timeout)]), [None]);
      r.why == Some(Failed(Closed)) && r.raw == [65]
  {
    var incoming := [Data([65]), NoData(Timeout)];
    assert incoming[1..] == [NoData(Timeout)] && incoming[1..][1..] == [];
    var f := FeedOf([], incoming);
    assert f == FeedOf([] + [65], incoming[1..]) == Feed([65], Timeout, []);
    assert Hears(f, [None]) == Heard([65], [], Failed(Closed));
    FeedFails([], incoming);
    AllIff(f, [None]);
  }

  /** The first bytes that come in one go, or the first failure other than a timeout. */
  function FirstBurst(f: Feed, waits: seq<Option<string>>): Feed
    decreases |waits|
  {
    if f.ready == [] && f.why == Timeout && WaitFails(waits).None? then FirstBurst(FeedOf([], f.after), waits[1..]) else f
  }

  /** "*" gets the first bytes that come; it succeeds exactly when there are any and a timeout or the end follows. */
  lemma {:induction false} AnyIff(f: Feed, waits: seq<Option<string>>)
    requires f.why != Done && AllReceived(f.after)
    ensures var b, r := FirstBurst(f, waits), Retried(Any, f, waits);
      && (r.why == None <==> b.ready != [] && (b.why == Timeout || b.why == Closed))
      && r.raw == b.ready && r.left == FeedOf([], b.after)
      && (r.why == None || b.why == Timeout || r.why == Some(Failed(b.why)))
    decreases |waits|
  {
    if f.ready == [] && f.why == Timeout && WaitFails(waits).None? {
      FeedFails([], f.after);
      AnyIff(FeedOf([], f.after), waits[1..]);
      var r := Retried(Any, FeedOf([], f.after), waits[1..]);
      assert [] + r.raw == r.raw;
    }
  }

  /** What the results bring before a failure other than a timeout. */
  function Delivered(incoming: seq<Received>): ByteString {
    if incoming == [] then []
    else match incoming[0]
         case Data(bytes) => bytes + Delivered(incoming[1..])
         case NoData(io) => if io == Timeout then Delivered(incoming[1..]) else []
  }

  /** When no wait fails, all of that is heard, however it is cut and delayed. */
  lemma {:induction false} HearsAll(buffer: ByteString, incoming: seq<Received>, waits: seq<Option<string>>)
    requires |incoming| <= |waits| && forall i :: 0 <= i < |waits| ==> waits[i] == None
    ensures Hears(FeedOf(buffer, incoming), waits).bytes == buffer + Delivered(incoming)
    decreases |incoming|
  {
    if incoming != [] {
      match incoming[0] {
        case Data(bytes) =>
          HearsAll(buffer + bytes, incoming[1..], waits);
          Assoc(buffer, bytes, Delivered(incoming[1..]));
        case NoData(io) =>
          if io == Timeout {
            HearsAll([], incoming[1..], waits[1..]);
          }
      }
    }
  }

  /** The stream begins with what the pattern asks for. */
  predicate AsksFor(pattern: Pattern, stream: ByteString) {
    || (pattern == Count(|stream|) && stream != [])
    || (pattern == Line && LF in stream && LineLength(stream) == |stream|)
  }

  lemma HeardEnough(pattern: Pattern, f: Feed, waits: seq<Option<string>>, stream: ByteString)
    requires f.why != Done && AllReceived(f.after)
    requires stream <= Hears(f, waits).bytes && AsksFor(pattern, stream)
    ensures Retried(pattern, f, waits).why == None && Retried(pattern, f, waits).raw == stream
  {
    hide Hears, Retried, LineLength;
    var bytes := Hears(f, waits).bytes;
    assert bytes == stream + bytes[|stream|..];
    if pattern.Line? {
      LineIff(f, waits);
      LineOf(stream, bytes[|stream|..]);
    } else {
      CountIff(pattern.n, f, waits);
    }
  }

  /** So a count or a line reads the same for every fragmentation and every pattern of timeouts, as long as enough of
      the stream comes before another failure. */
  lemma SameForEveryCut(pattern: Pattern, buffer: ByteString, incoming: seq<Received>, waits: seq<Option<string>>,
                        stream: ByteString)
    requires AllReceived(incoming) && |incoming| <= |waits| && forall i :: 0 <= i < |waits| ==> waits[i] == None
    requires stream <= buffer + Delivered(incoming) && AsksFor(pattern, stream)
    ensures var r := Retried(pattern, FeedOf(buffer, incoming), waits);
      && r.why == None && r.raw == stream
      && r.raw + Pending(r.left) == buffer + Brought(incoming)
  {
    hide FeedOf, Hears, Delivered, Retried, Brought, AsksFor;
    var f := FeedOf(buffer, incoming);
    HearsAll(buffer, incoming, waits);
    FeedFails(buffer, incoming);
    FeedPending(buffer, incoming);
    NothingLost(pattern, f, waits);
    HeardEnough(pattern, f, waits, stream);
  }

  /* ---- Sending ---- */

  datatype Progress = Progress(err: Io, total: nat, left: seq<Accepted>)

  function Smallest(a: nat, b: nat): nat { if a < b then a else b }

  /** Sending size bytes: each result of the transport takes some of a step, until one is a failure. */
  function Sent(size: nat, accepts: seq<Accepted>): (p: Progress)
    ensures p.total <= size && |p.left| <= |accepts|
    decreases |accepts|
  {
    if size == 0 then Progress(Done, 0, accepts)
    else if accepts == [] then Progress(Closed, 0, [])
    else match accepts[0]
         case Refuses(io) => Progress(io, 0, accepts[1..])
         case Takes(count) =>
           var d := Smallest(count, Smallest(size, STEPSIZE));
           var p := Sent(size - d, accepts[1..]);
           p.(total := d + p.total)
  }

  /** why is None for a success. */
  datatype Posted = Posted(why: Option<Why>, total: nat, left: seq<Accepted>)

  function Reposted(size: nat, accepts: seq<Accepted>, waits: seq<Option<string>>): Posted
    decreases |waits|
  {
    var p := Sent(size, accepts);
    if p.err == Done then Posted(None, p.total, p.left)
    else if p.err != Timeout then Posted(Some(Failed(p.err)), p.total, p.left)
    else if WaitFails(waits).Some? then Posted(Some(Waiting(WaitFails(waits).value)), p.total, p.left)
    else
      var r := Reposted(size - p.total, p.left, waits[1..]);
      r.(total := p.total + r.total)
  }

  /** The transport is offered 8192 bytes at a time, and takes as many of these as it likes. */
  lemma OfferedInSteps(size: nat, count: nat, rest: seq<Accepted>)
    requires size > 0
    ensures var accepts := [Takes(count)] + rest;
      var d := Smallest(count, if size <= 8192 then size else 8192);
      d <= size && Sent(size, accepts) == Sent(size - d, rest).(total := d + Sent(size - d, rest).total)
    ensures Sent(size, []) == Progress(Closed, 0, [])
  {
    assert ([Takes(count)] + rest)[1..] == rest;
  }

  lemma SmallestIs(a: nat, b: nat)
    ensures Smallest(a, b) <= a && Smallest(a, b) <= b && (Smallest(a, b) == a || Smallest(a, b) == b)
  {
  }

  /** It returns at most 8192 bytes at a time. */
  lemma ReceivedInBlocks(bytes: ByteString)
    ensures GoodReceived(Data(bytes)) <==> 0 < |bytes| <= 8192
  {
  }

  lemma {:induction false} NoMore(size: nat, accepts: seq<Accepted>, waits: seq<Option<string>>)
    ensures Reposted(size, accepts, waits).total <= size
    decreases |waits|
  {
    var p := Sent(size, accepts);
    if p.err == Timeout && WaitFails(waits).None? {
      NoMore(size - p.total, p.left, waits[1..]);
    }
  }

  /** How many bytes are taken up to the first failure that is not overcome, and that failure. */
  datatype Room = Room(room: nat, why: Why)

  function RoomFor(accepts: seq<Accepted>, waits: seq<Option<string>>): Room
    decreases |accepts|
  {
    if accepts == [] then Room(0, Failed(Closed))
    else match accepts[0]
         case Takes(count) => var r := RoomFor(accepts[1..], waits); r.(room := Smallest(count, STEPSIZE) + r.room)
         case Refuses(io) =>
           if io != Timeout then Room(0, Failed(io))
           else if WaitFails(waits).Some? then Room(0, Waiting(WaitFails(waits).value))
           else RoomFor(accepts[1..], waits[1..])
  }

  /** Sending succeeds exactly when there is room; otherwise the room is used up, and the failure is the one behind it. */
  lemma {:induction false} SendIff(size: nat, accepts: seq<Accepted>, waits: seq<Option<string>>)
    requires AllAccepted(accepts)
    ensures var r, w := Reposted(size, accepts, waits), RoomFor(accepts, waits);
      && (r.why == None <==> size <= w.room)
      && (if r.why == None then r.total == size else r.total == w.room && r.why == Some(w.why))
    decreases |accepts|
  {
    if size > 0 && accepts != [] {
      assert GoodAccepted(accepts[0]);
      match accepts[0] {
        case Takes(count) =>
          SendIff(size - Smallest(count, Smallest(size, STEPSIZE)), accepts[1..], waits);
        case Refuses(io) =>
          if io == Timeout && WaitFails(waits).None? {
            SendIff(size, accepts[1..], waits[1..]);
          }
      }
    }
  }

  /** What the results take before a failure other than a timeout. */
  function Taken(accepts: seq<Accepted>): nat {
    if accepts == [] then 0
    else match accepts[0]
         case Takes(count) => Smallest(count, STEPSIZE) + Taken(accepts[1..])
         case Refuses(io) => if io == Timeout then Taken(accepts[1..]) else 0
  }

  /** When no wait fails, everything is sent for every pattern of partial writes and timeouts, if the transport takes
      that much before another failure. */
  lemma {:induction false} SendsAll(accepts: seq<Accepted>, waits: seq<Option<string>>)
    requires |accepts| <= |waits| && forall i :: 0 <= i < |waits| ==> waits[i] == None
    ensures RoomFor(accepts, waits).room == Taken(accepts)
    decreases |accepts|
  {
    if accepts != [] {
      SendsAll(accepts[1..], if accepts[0].Refuses? then waits[1..] else waits);
    }
  }
}
