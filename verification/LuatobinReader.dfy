/** deserialize (c/luatobin.c): reading one object from a string, or from a list of strings
    that are spliced only where an item runs over the end of one. */
module LuatobinReader {
  import opened Bytes
  import opened LuatobinFormat

  datatype Source = Whole(text: ByteString) | Frames(frames: seq<ByteString>)

  /** What deserialize returns for one object: the index of the next one, and the object if any was read. */
  datatype Outcome = Nothing(next: int) | One(next: int, value: Value, heap: seq<Object>)

  lemma NoFrames(fs: seq<ByteString>)
    ensures Concat(fs[|fs|..]) == []
  {
  }

  /** Splicing the next string to the buffer. */
  lemma NextFrame(buffer: ByteString, start: nat, fs: seq<ByteString>, i: nat)
    requires start <= |buffer| && i < |fs|
    ensures (buffer + fs[i])[start..] + Concat(fs[i + 1..]) == buffer[start..] + Concat(fs[i..])
  {
    assert fs[i..][1..] == fs[i + 1..];
    assert (buffer + fs[i])[start..] == buffer[start..] + fs[i];
    Assoc(buffer[start..], fs[i], Concat(fs[i + 1..]));
  }

  class Reader {
    const source: Source
    var indice: nat       // how many strings of the list are in use
    var frame: ByteString // the current string, spliced or not
    var index: nat        // position in frame
    var gindex: int       // position in the whole input
    var built: Built

    predicate Valid()
      reads this
    {
      index <= |frame| && (source.Frames? ==> indice <= |source.frames|)
    }

    /** The bytes still to be read, wherever they are. */
    function Unread(): ByteString
      requires Valid()
      reads this
    {
      frame[index..] + if source.Frames? then Concat(source.frames[indice..]) else []
    }

    constructor (source: Source, indice: nat, frame: ByteString, index: nat, gindex: int)
      requires index <= |frame| && (source.Frames? ==> indice <= |source.frames|)
      ensures Valid() && fresh(this)
      ensures this.source == source && this.gindex == gindex && built == NOTHING_BUILT
      ensures Unread() == frame[index..] + if source.Frames? then Concat(source.frames[indice..]) else []
    {
      this.source, this.indice, this.frame := source, indice, frame;
      this.index, this.gindex, this.built := index, gindex, NOTHING_BUILT;
    }

    /** Make the next call bytes available in frame. */
    method ReadObject(call: nat) returns (ok: bool)
      requires Valid()
      modifies this`frame, this`index, this`indice
      ensures ok <==> |old(Unread())| >= call
      ensures ok ==> Valid() && Unread() == old(Unread()) && index + call <= |frame|
      ensures ok ==> frame[index..][..call] == old(Unread())[..call]
      ensures ok ==> frame[index + call..] + (if source.Frames? then Concat(source.frames[indice..]) else []) ==
                     old(Unread())[call..]
    {
      hide Concat;
      ghost var was := Unread();
      ok := true;
      if index + call > |frame| {
        if source.Whole? { return false; }
        var fs := source.frames;
        var i, buffer, current, start := indice, [], 0, index;
        if index < |frame| {
          buffer, current := frame, |frame| - index;
        } else {
          start := 0;
        }
        while current < call
          invariant indice <= i <= |fs|
          invariant start <= |buffer| && current == |buffer| - start
          invariant buffer[start..] + Concat(fs[i..]) == was
          decreases |fs| - i
        {
          if i >= |fs| {
            NoFrames(fs);
            return false;
          }
          NextFrame(buffer, start, fs, i);
          current, buffer, i := current + |fs[i]|, buffer + fs[i], i + 1;
        }
        frame, index, indice := buffer, start, i;
      }
      Available(frame, index, call, if source.Frames? then Concat(source.frames[indice..]) else []);
    }

    method Skip(n: nat)
      requires Valid() && index + n <= |frame|
      modifies this`index, this`gindex
      ensures Valid() && gindex == old(gindex) + n
      ensures index == old(index) + n
      ensures Unread() == frame[index..] + if source.Frames? then Concat(source.frames[indice..]) else []
    {
      index, gindex := index + n, gindex + n;
    }

    /** The next n bytes, consumed. */
    method Take(n: nat) returns (r: Option<ByteString>)
      requires Valid()
      modifies this`frame, this`index, this`indice, this`gindex
      ensures r.Some? <==> |old(Unread())| >= n
      ensures r.Some? ==> Valid() && r.value == old(Unread())[..n] && Unread() == old(Unread())[n..]
      ensures r.Some? ==> gindex == old(gindex) + n
    {
      var ok := ReadObject(n);
      if !ok { return None; }
      r := Some(frame[index..][..n]);
      Skip(n);
    }

    /** One value: exactly what the stream of unread bytes says, whatever frames it is cut into. */
    method DeserializeValue() returns (r: Result<Value, DeError>)
      requires Valid()
      modifies this
      ensures var o := De(old(Unread()), old(built));
        match o
        case Err(e) => r == Err(e)
        case Ok(x) => r == Ok(x.value) && Valid() && Unread() == x.rest && built == x.built
                      && gindex == old(gindex) + |old(Unread())| - |x.rest|
      decreases |Unread()|, 0
    {
      var tag := Take(1);
      if tag.None? { return Err(EndOfInput); }
      var t := tag.value[0];
      if t == TAG_NIL {
        return Ok(Nil);
      } else if t == TAG_BOOLEAN {
        var b := Take(1);
        if b.None? { return Err(EndOfInput); }
        return Ok(Bool(b.value[0] != 0));
      } else if t == TAG_DOUBLE {
        var b := Take(8);
        if b.None? { return Err(EndOfInput); }
        return Ok(Double(b.value));
      } else if t == TAG_INTEGER {
        var b := Take(4);
        if b.None? { return Err(EndOfInput); }
        return Ok(Int(FromBe32(b.value)));
      } else if t == TAG_REF || t == TAG_STRING || t == TAG_FUNCTION || t == TAG_TABLE {
        r := DeserializeSized(t);
      } else {
        return Err(UnknownTag);
      }
    }

    /** The forms whose tag is followed by a 16-bit number. */
    method DeserializeSized(t: Byte) returns (r: Result<Value, DeError>)
      requires Valid() && t in {TAG_REF, TAG_STRING, TAG_FUNCTION, TAG_TABLE}
      modifies this
      ensures var o := De([t] + old(Unread()), old(built));
        match o
        case Err(e) => r == Err(e)
        case Ok(x) => r == Ok(x.value) && Valid() && Unread() == x.rest && built == x.built
                      && gindex == old(gindex) + |old(Unread())| - |x.rest|
      decreases |Unread()|, 3
    {
      ghost var s := Unread();
      assert ([t] + s)[1..] == s;
      var b := Take(2);
      if b.None? { return Err(EndOfInput); }
      var size := FromBe16(b.value[0], b.value[1]);
      if t == TAG_REF {
        return Ok(FromCache(built, size));
      } else if t == TAG_STRING {
        var x := Take(size);
        if x.None? { return Err(EndOfInput); }
        built := AddToCache(built, Str(x.value));
        return Ok(Str(x.value));
      } else if t == TAG_FUNCTION {
        var x := Take(size);
        if x.None? { return Err(EndOfInput); }
        var f := Fun(|built.heap|);
        built := AddToCache(built.(heap := built.heap + [Function(Some(x.value))]), f);
        return Ok(f);
      } else {
        r := DeserializeTable(size);
      }
    }

    method DeserializeTable(size: nat) returns (r: Result<Value, DeError>)
      requires Valid()
      modifies this
      ensures var id := |old(built).heap|;
        var o := DeEntries(old(Unread()), size, id,
                           AddToCache(old(built).(heap := old(built).heap + [Table([])]), Tab(id)));
        match o
        case Err(e) => r == Err(e)
        case Ok(x) => r == Ok(Tab(id)) && Valid() && Unread() == x.rest && built == x.built
                      && gindex == old(gindex) + |old(Unread())| - |x.rest|
      decreases |Unread()|, 2
    {
      var id := |built.heap|;
      built := AddToCache(built.(heap := built.heap + [Table([])]), Tab(id));
      ghost var s, start := Unread(), built;
      var left := size;
      while left > 0
        invariant Valid() && 0 <= left <= size && |Unread()| <= |s|
        invariant DeEntries(s, size, id, start) == DeEntries(Unread(), left, id, built)
        invariant gindex == old(gindex) + |s| - |Unread()|
      {
        var e := DeserializePair(id);
        if e.Some? { return Err(e.value); }
        left := left - 1;
      }
      return Ok(Tab(id));
    }

    /** A key and its value, stored in table id. */
    method DeserializePair(id: nat) returns (e: Option<DeError>)
      requires Valid()
      modifies this
      ensures var o := DePair(old(Unread()), id, old(built));
        match o
        case Err(x) => e == Some(x)
        case Ok(x) => e == None && Valid() && Unread() == x.rest && built == x.built
                      && gindex == old(gindex) + |old(Unread())| - |x.rest|
      decreases |Unread()|, 1
    {
      var k := DeserializeValue();
      if k.Err? { return Some(k.error); }
      var x := DeserializeValue();
      if x.Err? { return Some(x.error); }
      if BadKey(k.value) { return Some(InvalidKey); }
      built := built.(heap := Store(built.heap, id, k.value, x.value));
      return None;
    }
  }

  /** One object from position g of a string. */
  function OneFrom(s: ByteString, g: int): Result<Outcome, DeError> {
    if 0 <= g < |s| then
      match De(s[g..], NOTHING_BUILT)
      case Err(e) => Err(e)
      case Ok(x) => Ok(One(|s| - |x.rest| + 1, x.value, x.built.heap))
    else Ok(Nothing(g + 1))
  }

  /** g is where some string of the list ends. */
  ghost predicate FrameEnd(fs: seq<ByteString>, g: int) {
    exists k :: 1 <= k <= |fs| && |Concat(fs[..k])| == g
  }

  /** One object from position g of a list of strings. */
  ghost function OneFromFrames(fs: seq<ByteString>, g: int): Result<Outcome, DeError> {
    if fs == [] || g > |Concat(fs)| then Err(EndOfInput)
    else if FrameEnd(fs, g) then Ok(Nothing(g + 1))
    else OneFrom(Concat(fs), g)
  }

  /** get_local_index: which string holds position gindex, and where in it. */
  method GetLocalIndex(fs: seq<ByteString>, gindex: int) returns (r: Option<(nat, int)>)
    requires fs != []
    ensures r == None <==> gindex > |Concat(fs)|
    ensures r.Some? ==> var (indice, lindex) := r.value;
      && 1 <= indice <= |fs| && lindex == gindex - |Concat(fs[..indice - 1])|
      && lindex <= |fs[indice - 1]| && (0 <= gindex ==> 0 <= lindex)
      && (FrameEnd(fs, gindex) <==> lindex == |fs[indice - 1]|)
  {
    var indice, lindex, objlen := 1, 0, |fs[0]|;
    Prefix(fs, 0);
    while lindex + objlen < gindex
      invariant 1 <= indice <= |fs| && objlen == |fs[indice - 1]|
      invariant lindex == |Concat(fs[..indice - 1])| && lindex + objlen == |Concat(fs[..indice])|
      invariant indice > 1 ==> lindex < gindex
      decreases |fs| - indice
    {
      if indice >= |fs| {
        assert fs[..indice] == fs;
        return None;
      }
      lindex := lindex + objlen;
      Prefix(fs, indice);
      indice := indice + 1;
      objlen := |fs[indice - 1]|;
    }
    forall k | 1 <= k <= |fs| ensures
      && (k < indice ==> |Concat(fs[..k])| <= lindex)
      && (k > indice ==> |Concat(fs[..k])| >= lindex + objlen)
    {
      PrefixesGrow(fs, if k < indice then k else indice, if k < indice then indice - 1 else k);
    }
    PrefixesGrow(fs, indice, |fs|);
    assert fs[..|fs|] == fs;
    return Some((indice, gindex - lindex));
  }

  lemma Prefix(fs: seq<ByteString>, k: nat)
    requires k < |fs|
    ensures Concat(fs[..k + 1]) == Concat(fs[..k]) + fs[k]
  {
    assert fs[..k + 1] == fs[..k] + [fs[k]];
    ConcatAppend(fs[..k], [fs[k]]);
  }

  lemma {:induction false} PrefixesGrow(fs: seq<ByteString>, j: nat, k: nat)
    requires j <= k <= |fs|
    ensures |Concat(fs[..j])| <= |Concat(fs[..k])|
    decreases k
  {
    if j < k {
      PrefixesGrow(fs, j, k - 1);
      Prefix(fs, k - 1);
    }
  }

  /** The bytes of a source, from position g on, start in frame at position lindex. */
  predicate StartsAt(source: Source, g: int, frame: ByteString, lindex: int, indice: nat) {
    match source
    case Whole(s) => frame == s && lindex == g
    case Frames(fs) =>
      && indice <= |fs| && lindex <= |frame|
      && (0 <= lindex ==> 0 <= g <= |Concat(fs)| && frame[lindex..] + Concat(fs[indice..]) == Concat(fs)[g..])
  }

  method FirstFrame(fs: seq<ByteString>, g: int) returns (r: Option<(ByteString, int, nat)>)
    ensures r == None <==> fs == [] || g > |Concat(fs)|
    ensures r.Some? ==> var (frame, lindex, indice) := r.value;
      && StartsAt(Frames(fs), g, frame, lindex, indice)
      && (0 <= g ==> 0 <= lindex)
      && (FrameEnd(fs, g) <==> lindex == |frame|)
  {
    hide Concat, FrameEnd;
    if fs == [] { return None; }
    var l := GetLocalIndex(fs, g);
    if l == None { return None; }
    var (indice, lindex) := l.value;
    FrameAt(fs, indice - 1);
    return Some((fs[indice - 1], lindex, indice));
  }

  lemma FrameAt(fs: seq<ByteString>, k: nat)
    requires k < |fs|
    ensures Concat(fs) == Concat(fs[..k]) + fs[k] + Concat(fs[k + 1..])
  {
    assert fs == fs[..k] + fs[k..] && fs[k..][1..] == fs[k + 1..];
    ConcatAppend(fs[..k], fs[k..]);
    Assoc(Concat(fs[..k]), fs[k], Concat(fs[k + 1..]));
  }

  /** deserialize(buffer, 1, offset) */
  method Deserialize(source: Source, offset: int) returns (r: Result<Outcome, DeError>)
    ensures r == match source
                 case Whole(s) => OneFrom(s, offset - 1)
                 case Frames(fs) => OneFromFrames(fs, offset - 1)
  {
    var gindex := offset - 1;
    var frame, lindex, indice := [], gindex, 0;
    match source {
      case Whole(s) => frame := s;
      case Frames(fs) =>
        var f := FirstFrame(fs, gindex);
        if f == None { return Err(EndOfInput); }
        frame, lindex, indice := f.value.0, f.value.1, f.value.2;
    }
    // The source compares with an unsigned length: a negative position is past the end.
    if !(0 <= lindex < |frame|) { return Ok(Nothing(gindex + 1)); }
    r := DeserializeOne(source, gindex, frame, lindex, indice);
  }

  method DeserializeOne(source: Source, g: int, frame: ByteString, lindex: nat, indice: nat)
    returns (r: Result<Outcome, DeError>)
    requires StartsAt(source, g, frame, lindex, indice) && lindex < |frame|
    ensures r == OneFrom(if source.Whole? then source.text else Concat(source.frames), g)
  {
    hide Concat, De;
    ghost var all := if source.Whole? then source.text else Concat(source.frames);
    var reader := new Reader(source, indice, frame, lindex, g);
    assert reader.Unread() == all[g..];
    var v := reader.DeserializeValue();
    if v.Err? { return Err(v.error); }
    return Ok(One(reader.gindex + 1, v.value, reader.built.heap));
  }

  /** A list of strings reads as their concatenation exactly when the position is not where a string
      of the list ends, unless that is the end of all of them. */
  lemma FramesRefineConcat(fs: seq<ByteString>, g: int)
    requires fs != []
    ensures OneFromFrames(fs, g) == OneFrom(Concat(fs), g) <==>
            g == |Concat(fs)| || (g < |Concat(fs)| && !FrameEnd(fs, g))
  {
    assert fs[..|fs|] == fs;
    assert FrameEnd(fs, |Concat(fs)|);
  }

  /** Two strings with nil each: from position 1 the list reads nothing, its concatenation the second nil. */
  lemma FrameEndReadsNothing()
    ensures var fs: seq<ByteString> := [[TAG_NIL], [TAG_NIL]];
      OneFromFrames(fs, 1) == Ok(Nothing(2)) && OneFrom(Concat(fs), 1) == Ok(One(3, Nil, NOTHING_BUILT.heap))
  {
    var fs: seq<ByteString> := [[TAG_NIL], [TAG_NIL]];
    assert Concat(fs[1..]) == [TAG_NIL] + Concat(fs[1..][1..]);
    assert Concat(fs) == [TAG_NIL, TAG_NIL];
    assert fs[..1] == [[TAG_NIL]] && Concat(fs[..1]) == [TAG_NIL] + Concat(fs[..1][1..]);
    assert FrameEnd(fs, 1);
  }

  lemma Available(frame: ByteString, index: nat, call: nat, rest: ByteString)
    requires index + call <= |frame|
    ensures var u := frame[index..] + rest;
      frame[index..][..call] == u[..call] && frame[index + call..] + rest == u[call..]
  {
  }
}
