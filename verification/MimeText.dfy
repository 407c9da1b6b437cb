/** SMTP dot stuffing and end-of-line normalisation (c/mime.c). */
module MimeText {
  import opened Bytes
  import opened Streams

  const DOT: Byte := 46

  /* ---- Dot stuffing: section 4.5.2 of RFC 5321 ---- */

  /** dot: the state is 1 after a CR, 2 at the start of a line, 0 elsewhere. */
  function DotStep(state: int, c: Byte): Step<int> {
    if c == CR then Step(1, [c])
    else if c == LF then Step(if state == 1 then 2 else 0, [c])
    else Step(0, if c == DOT && state == 2 then [c, DOT] else [c])
  }

  function DotFlush(state: int): Option<ByteString> { None }

  method MimeDot(state: int, chunk: Option<ByteString>) returns (a: Option<ByteString>, n: int)
    ensures Call(a, n) == CountCall(DotStep, DotFlush, 2, state, chunk)
  {
    if chunk == None { return None, 2; }
    var s, text := chunk.value, [];
    n := state;
    for i := 0 to |s|
      invariant Step(n, text) == Run(DotStep, state, s[..i])
    {
      RunSnoc(DotStep, state, s[..i], s[i]);
      assert s[..i + 1] == s[..i] + [s[i]];
      var c := s[i];
      text := text + [c];
      if c == CR {
        n := 1;
      } else if c == LF {
        n := if n == 1 then 2 else 0;
      } else {
        if c == DOT && n == 2 {
          text := text + [DOT];
        }
        n := 0;
      }
    }
    assert s[..|s|] == s;
    a := Some(text);
  }

  /** The stuffing filter over any chunking. */
  function Stuffed(s: ByteString): ByteString {
    Run(DotStep, 2, s).text
  }

  /** Position i of s starts a line: it is the first, or comes right after a CRLF. */
  predicate LineStart(s: ByteString, i: nat) {
    i == 0 || (2 <= i <= |s| && s[i - 2] == CR && s[i - 1] == LF)
  }

  /** What the receiver does from position i on: one leading dot is removed from each line. */
  function Unstuffed(s: ByteString, i: nat): ByteString
    requires i <= |s|
    decreases |s| - i
  {
    if i == |s| then []
    else (if s[i] == DOT && LineStart(s, i) then [] else [s[i]]) + Unstuffed(s, i + 1)
  }

  /** The state says where in a line the text stands: behind the bytes `done` already emitted. */
  predicate StateOf(done: ByteString, state: int) {
    && (state == 2 <==> LineStart(done, |done|))
    && (state == 1 <==> done != [] && done[|done| - 1] == CR)
  }

  /** Stuffed text read behind `done`, whatever follows it, gives the input back. */
  lemma {:induction false} UnstuffsFrom(done: ByteString, state: int, s: ByteString)
    requires StateOf(done, state)
    ensures Unstuffed(done + Run(DotStep, state, s).text, |done|) == s
    decreases s
  {
    if s == [] {
      assert done + [] == done;
    } else {
      var a := DotStep(state, s[0]);
      var rest := Run(DotStep, a.state, s[1..]).text;
      var done' := done + a.text;
      var all := done + (a.text + rest);
      Assoc(done, a.text, rest);
      assert StateOf(done', a.state);
      UnstuffsFrom(done', a.state, s[1..]);
      assert all == done' + rest;
      UnstuffsOne(done, state, s[0], rest);
      assert [s[0]] + s[1..] == s;
    }
  }

  lemma UnstuffsOne(done: ByteString, state: int, c: Byte, rest: ByteString)
    requires StateOf(done, state)
    ensures var text := DotStep(state, c).text;
      var all := done + (text + rest);
      Unstuffed(all, |done|) == [c] + Unstuffed(all, |done + text|)
  {
    hide Unstuffed;
    var text := DotStep(state, c).text;
    var all := done + (text + rest);
    assert all[|done|] == c && all[..|done|] == done;
    SameStart(done, all);
    if |text| == 2 {
      assert all[|done| + 1] == DOT;
      DropsDot(all, |done|);
    } else {
      KeepsByte(all, |done|);
    }
  }

  lemma SameStart(done: ByteString, all: ByteString)
    requires done <= all
    ensures LineStart(all, |done|) <==> LineStart(done, |done|)
  {
  }

  lemma KeepsByte(all: ByteString, i: nat)
    requires i < |all| && !(all[i] == DOT && LineStart(all, i))
    ensures Unstuffed(all, i) == [all[i]] + Unstuffed(all, i + 1)
  {
  }

  lemma DropsDot(all: ByteString, i: nat)
    requires i + 1 < |all| && all[i] == all[i + 1] == DOT && LineStart(all, i)
    ensures Unstuffed(all, i) == [DOT] + Unstuffed(all, i + 2)
  {
    hide Unstuffed;
    DropsFirst(all, i);
    KeepsByte(all, i + 1);
  }

  lemma DropsFirst(all: ByteString, i: nat)
    requires i < |all| && all[i] == DOT && LineStart(all, i)
    ensures Unstuffed(all, i) == Unstuffed(all, i + 1)
  {
  }

  /** Unstuffing undoes stuffing: any input, any chunking. */
  lemma Transparent(chunks: seq<ByteString>)
    ensures CountPump(DotStep, DotFlush, 2, 2, chunks) == Stuffed(Concat(chunks))
    ensures Unstuffed(Stuffed(Concat(chunks)), 0) == Concat(chunks)
  {
    CountPumpIsWhole(DotStep, DotFlush, 2, 2, chunks);
    var s := Concat(chunks);
    assert Stuffed(s) + [] == Stuffed(s) && [] + Stuffed(s) == Stuffed(s);
    UnstuffsFrom([], 2, s);
  }

  const END_OF_MAIL: ByteString := [13, 10, 46, 13, 10]

  /** The terminator stands at position i of s. */
  predicate EndsAt(s: ByteString, i: nat) {
    i + 5 <= |s| && s[i] == CR && s[i + 1] == LF && s[i + 2] == DOT && s[i + 3] == CR && s[i + 4] == LF
  }

  /** A dot at the start of a line of s is followed by another one. */
  predicate DotsDoubled(s: ByteString) {
    forall i :: 0 <= i < |s| && s[i] == DOT && LineStart(s, i) ==> i + 1 < |s| && s[i + 1] == DOT
  }

  lemma {:induction false} StuffedDoubles(done: ByteString, state: int, s: ByteString)
    requires StateOf(done, state) && DotsDoubled(done)
    ensures DotsDoubled(done + Run(DotStep, state, s).text)
    decreases s
  {
    if s == [] {
      assert done + [] == done;
    } else {
      var a := DotStep(state, s[0]);
      var done' := done + a.text;
      forall i | 0 <= i < |done'| && done'[i] == DOT && LineStart(done', i)
        ensures i + 1 < |done'| && done'[i + 1] == DOT
      {
        if i < |done| {
          assert done[i] == DOT && LineStart(done, i);
        } else if i == |done| {
          assert LineStart(done, i);
        }
      }
      StuffedDoubles(done', a.state, s[1..]);
      Assoc(done, a.text, Run(DotStep, a.state, s[1..]).text);
    }
  }

  /** At the start of a line, nothing in the stuffed text can be taken for the end of the mail:
      the terminator only stands where the sender put it. */
  lemma OnlyOneEnd(s: ByteString, i: nat)
    requires EndsAt(CRLF + Stuffed(s) + END_OF_MAIL, i)
    ensures i == 2 + |Stuffed(s)|
  {
    var t := Stuffed(s);
    StuffedDoubles([], 2, s);
    assert [] + t == t;
    hide Run, Stuffed;
    NoEndInside(t, i);
  }

  lemma NoEndInside(t: ByteString, i: nat)
    requires DotsDoubled(t) && EndsAt(CRLF + t + END_OF_MAIL, i)
    ensures i == 2 + |t|
  {
    var all := CRLF + t + END_OF_MAIL;
    assert forall k {:trigger t[k]} :: 0 <= k < |t| ==> t[k] == all[k + 2];
    assert i < |t| ==> (LineStart(t, i) <==> LineStart(all, i + 2));
  }

  /* ---- End of line ---- */

  predicate BreakByte(c: int) {
    c == CR || c == LF
  }

  /** eolprocess: ctx is the break byte just met, when its line break has been issued, or 0. */
  function EolStep(marker: ByteString): (int, Byte) -> Step<int> {
    (ctx: int, c: Byte) =>
      if BreakByte(c) then
        if BreakByte(ctx) then Step(0, if c == ctx then marker else [])
        else Step(c, marker)
      else Step(0, [c])
  }

  function EolFlush(ctx: int): Option<ByteString> { None }

  method MimeEol(ctx: int, chunk: Option<ByteString>, marker: ByteString) returns (a: Option<ByteString>, n: int)
    ensures Call(a, n) == CountCall(EolStep(marker), EolFlush, 0, ctx, chunk)
  {
    if chunk == None { return None, 0; }
    var s, text := chunk.value, [];
    n := ctx;
    for i := 0 to |s|
      invariant Step(n, text) == Run(EolStep(marker), ctx, s[..i])
    {
      RunSnoc(EolStep(marker), ctx, s[..i], s[i]);
      assert s[..i + 1] == s[..i] + [s[i]];
      var c := s[i];
      if BreakByte(c) {
        if BreakByte(n) {
          if c == n {
            text := text + marker;
          }
          n := 0;
        } else {
          text := text + marker;
          n := c;
        }
      } else {
        text, n := text + [c], 0;
      }
    }
    assert s[..|s|] == s;
    a := Some(text);
  }

  /** A line break by one of the four usual conventions. */
  predicate Convention(eol: ByteString) {
    eol in {[CR], [LF], [CR, LF], [LF, CR]}
  }

  predicate NoBreaks(line: ByteString) {
    forall i :: 0 <= i < |line| ==> !BreakByte(line[i])
  }

  /** The lines, each followed by the line break eol. */
  function Joined(lines: seq<ByteString>, eol: ByteString): ByteString {
    if lines == [] then [] else lines[0] + eol + Joined(lines[1..], eol)
  }

  lemma {:induction false} PlainLine(marker: ByteString, ctx: int, line: ByteString)
    requires NoBreaks(line)
    ensures Run(EolStep(marker), ctx, line) == Step(if line == [] then ctx else 0, line)
    decreases line
  {
    if line != [] {
      PlainLine(marker, 0, line[1..]);
      assert [line[0]] + line[1..] == line;
    }
  }

  /** One line and its break: the marker once, and a context that the next line may meet. */
  lemma OneLine(marker: ByteString, eol: ByteString, ctx: int, line: ByteString) returns (ctx': int)
    requires Convention(eol) && NoBreaks(line)
    requires ctx == 0 || (|eol| == 1 && ctx == eol[0])
    ensures Run(EolStep(marker), ctx, line + eol) == Step(ctx', line + marker)
    ensures ctx' == 0 || (|eol| == 1 && ctx' == eol[0])
  {
    var m := EolStep(marker);
    PlainLine(marker, ctx, line);
    var c1 := if line == [] then ctx else 0;
    RunAppend(m, ctx, line, eol);
    RunSnoc(m, c1, [], eol[0]);
    assert [] + [eol[0]] == [eol[0]] && [] + m(c1, eol[0]).text == marker;
    ctx' := m(c1, eol[0]).state;
    if |eol| == 2 {
      RunSnoc(m, c1, [eol[0]], eol[1]);
      assert [eol[0]] + [eol[1]] == eol && marker + [] == marker;
      ctx' := 0;
    } else {
      assert eol == [eol[0]];
    }
  }

  /** Whatever convention separated the lines, the filter separates them with the marker, once. */
  lemma {:induction false} NormalisesFrom(marker: ByteString, eol: ByteString, ctx: int, lines: seq<ByteString>)
    requires Convention(eol) && forall i :: 0 <= i < |lines| ==> NoBreaks(lines[i])
    requires ctx == 0 || (|eol| == 1 && ctx == eol[0])
    ensures Run(EolStep(marker), ctx, Joined(lines, eol)).text == Joined(lines, marker)
    decreases lines
  {
    if lines != [] {
      var ctx' := OneLine(marker, eol, ctx, lines[0]);
      NormalisesFrom(marker, eol, ctx', lines[1..]);
      RunAppend(EolStep(marker), ctx, lines[0] + eol, Joined(lines[1..], eol));
    }
  }

  lemma Normalises(marker: ByteString, eol: ByteString, lines: seq<ByteString>, chunks: seq<ByteString>)
    requires Convention(eol) && forall i :: 0 <= i < |lines| ==> NoBreaks(lines[i])
    requires Concat(chunks) == Joined(lines, eol)
    ensures CountPump(EolStep(marker), EolFlush, 0, 0, chunks) == Joined(lines, marker)
  {
    CountPumpIsWhole(EolStep(marker), EolFlush, 0, 0, chunks);
    NormalisesFrom(marker, eol, 0, lines);
    assert Joined(lines, marker) + [] == Joined(lines, marker);
  }

  /* ---- Both filters, byte by byte ---- */

  /** Each dot at the start of the text or right after a CR LF is doubled, and nothing else changes. */
  function Dotted(s: ByteString, i: nat): ByteString
    requires i <= |s|
    decreases |s| - i
  {
    if i == |s| then []
    else
      var starts := i == 0 || (i >= 2 && s[i - 2] == 13 && s[i - 1] == 10);
      (if s[i] == 46 && starts then [46, 46] else [s[i]]) + Dotted(s, i + 1)
  }

  lemma {:induction false} StuffsFrom(s: ByteString, i: nat, state: int)
    requires i <= |s| && StateOf(s[..i], state)
    ensures Run(DotStep, state, s[i..]).text == Dotted(s, i)
    decreases |s| - i
  {
    if i < |s| {
      var a := DotStep(state, s[i]);
      assert s[..i + 1] == s[..i] + [s[i]] && s[i..][1..] == s[i + 1..];
      assert StateOf(s[..i + 1], a.state);
      StuffsFrom(s, i + 1, a.state);
    }
  }

  /** The stuffing filter, for every input and every chunking. */
  lemma StuffedText(chunks: seq<ByteString>)
    ensures CountPump(DotStep, DotFlush, 2, 2, chunks) == Dotted(Concat(chunks), 0)
  {
    var s := Concat(chunks);
    Transparent(chunks);
    assert s[..0] == [] && s[0..] == s;
    StuffsFrom(s, 0, 2);
  }

  /** Two break bytes in a row are one break if they differ, and two if they are the same. */
  function Normal(marker: ByteString, s: ByteString): ByteString {
    if s == [] then []
    else if s[0] != 13 && s[0] != 10 then [s[0]] + Normal(marker, s[1..])
    else if |s| >= 2 && (s[1] == 13 || s[1] == 10) then
      (if s[0] == s[1] then marker + marker else marker) + Normal(marker, s[2..])
    else marker + Normal(marker, s[1..])
  }

  lemma {:induction false} NormalisesAll(marker: ByteString, s: ByteString)
    ensures Run(EolStep(marker), 0, s).text == Normal(marker, s)
    ensures forall last {:trigger Run(EolStep(marker), last, s)} :: BreakByte(last) ==>
      Run(EolStep(marker), last, s).text ==
      if s != [] && BreakByte(s[0]) then (if s[0] == last then marker else []) + Normal(marker, s[1..]) else Normal(marker, s)
    decreases s
  {
    if s != [] {
      NormalisesAll(marker, s[1..]);
      if BreakByte(s[0]) && |s| >= 2 && BreakByte(s[1]) {
        assert s[1..][1..] == s[2..];
        Assoc(marker, marker, Normal(marker, s[2..]));
        Assoc(marker, [], Normal(marker, s[2..]));
        assert marker + [] == marker;
      }
    }
  }

  /** The end-of-line filter, for every input and every chunking. */
  lemma NormalText(marker: ByteString, chunks: seq<ByteString>)
    ensures CountPump(EolStep(marker), EolFlush, 0, 0, chunks) == Normal(marker, Concat(chunks))
  {
    CountPumpIsWhole(EolStep(marker), EolFlush, 0, 0, chunks);
    NormalisesAll(marker, Concat(chunks));
    assert Normal(marker, Concat(chunks)) + [] == Normal(marker, Concat(chunks));
  }
}
