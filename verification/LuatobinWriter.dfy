/** serialize (c/luatobin.c): the recursive writer, which numbers objects as it meets them and
    reserves the place of a table's header until its entries are counted. */
module LuatobinWriter {
  import opened Bytes
  import opened LuatobinFormat
  import opened LuatobinRoundTrip
  import opened LuatobinReader

  class Writer {
    const heap: Heap
    var numbers: Numbers     // CacheTable
    var key: nat             // 16-bit object counter
    var out: seq<ByteString> // OutTable

    predicate Valid()
      reads this
    {
      ClosedHeap(heap) && key == |numbers| <= MAX_OBJECTS
    }

    constructor (heap: Heap)
      requires ClosedHeap(heap)
      ensures Valid() && fresh(this) && this.heap == heap && numbers == map[] && out == []
    {
      this.heap, numbers, key, out := heap, map[], 0, [];
    }

    /** What one call has done: the expected numbers, and the expected bytes after those already there. */
    twostate predicate Wrote(w: Written)
      reads this
    {
      && Valid() && numbers == w.numbers
      && |old(out)| < |out| && out[..|old(out)|] == old(out)
      && Concat(out[|old(out)|..]) == w.bytes && out[|old(out)|] != []
    }

    method WriteObject(bytes: ByteString)
      requires Valid() && bytes != []
      modifies this`out
      ensures Wrote(Written(bytes, numbers))
    {
      out := out + [bytes];
      assert out[|old(out)|..] == [bytes];
    }

    /** verify_cache: the number of a known object, or 0 for a new one, which gets the next number. */
    method VerifyCache(v: Value) returns (cached: nat)
      requires Valid() && (v in numbers ==> 1 <= numbers[v]) && (v !in numbers ==> |numbers| < MAX_OBJECTS)
      modifies this`numbers, this`key
      ensures Valid()
      ensures v in old(numbers) ==> cached == old(numbers)[v] && numbers == old(numbers)
      ensures v !in old(numbers) ==> cached == 0 && numbers == old(numbers)[v := |old(numbers)| + 1]
    {
      if v in numbers { return numbers[v]; }
      key := key + 1;
      numbers := numbers[v := key];
      return 0;
    }

    method SerializeValue(v: Value) returns (e: Option<SerError>)
      requires Valid() && InHeap(heap, v) && NumbersFromOne(numbers)
      modifies this
      ensures match Ser(heap, v, old(numbers))
              case Err(x) => e == Some(x)
              case Ok(w) => e == None && Wrote(w) && NumbersFromOne(numbers)
      decreases |Unvisited(heap, numbers)|, 0
    {
      e := None;
      match v
      case Nil => WriteObject([TAG_NIL]);
      case Bool(b) => WriteObject([TAG_BOOLEAN, if b then 1 else 0]);
      case Double(bits) => WriteObject([TAG_DOUBLE] + bits);
      case Int(n) => WriteObject([TAG_INTEGER] + Be32(n));
      case Other => e := Some(UnsupportedType);
      case _ => e := SerializeCached(v);
    }

    /** Strings, functions and tables: a back reference to a known one, or the thing itself. */
    method SerializeCached(v: Value) returns (e: Option<SerError>)
      requires Valid() && InHeap(heap, v) && NumbersFromOne(numbers) && Cached(v)
      modifies this
      ensures match Ser(heap, v, old(numbers))
              case Err(x) => e == Some(x)
              case Ok(w) => e == None && Wrote(w) && NumbersFromOne(numbers)
      decreases |Unvisited(heap, numbers)|, 0, 0
    {
      if v !in numbers && |numbers| >= MAX_OBJECTS { return Some(CounterWraps); }
      ghost var w := numbers;
      var cached := VerifyCache(v);
      if cached != 0 {
        WriteObject([TAG_REF] + Be16(cached % 0x10000));
      } else if v.Str? {
        if |v.s| >= MAX_LENGTH { return Some(StringTooLong); }
        WriteObject([TAG_STRING] + Be16(|v.s|) + v.s);
      } else if v.Fun? {
        var dump := heap[v.id].dump;
        if dump == None { return Some(CannotDump); }
        if |dump.value| >= MAX_LENGTH { return Some(FunctionTooLong); }
        WriteObject([TAG_FUNCTION] + Be16(|dump.value|) + dump.value);
      } else {
        VisitShrinks(heap, w, v.id);
        e := SerializeTable(heap[v.id].entries);
        return;
      }
      return None;
    }

    /** The entries of a table that has just been numbered, then its header in the place kept for it. */
    method SerializeTable(es: Entries) returns (e: Option<SerError>)
      requires Valid() && EntriesInHeap(heap, es) && NumbersFromOne(numbers)
      modifies this
      ensures match SerEntries(heap, es, old(numbers))
              case Err(x) => e == Some(x)
              case Ok(w) =>
                if |es| >= MAX_LENGTH then e == Some(TableTooLong)
                else e == None && NumbersFromOne(numbers) &&
                     Wrote(Written([TAG_TABLE] + Be16(|es|) + w.bytes, w.numbers))
      decreases |Unvisited(heap, numbers)|, 3
    {
      ghost var start := out;
      out := out + [[]];
      var header := |out| - 1;
      e := SerializeEntries(es);
      if e.Some? { return; }
      if |es| >= MAX_LENGTH { return Some(TableTooLong); }
      ghost var body := out[header + 1..];
      out := out[header := [TAG_TABLE] + Be16(|es|)];
      assert out[header..] == [[TAG_TABLE] + Be16(|es|)] + body;
      assert out[..header] == start;
    }

    method SerializeEntries(es: Entries) returns (e: Option<SerError>)
      requires Valid() && EntriesInHeap(heap, es) && NumbersFromOne(numbers)
      modifies this
      ensures match SerEntries(heap, es, old(numbers))
              case Err(x) => e == Some(x)
              case Ok(w) =>
                && e == None && Valid() && NumbersFromOne(numbers) && numbers == w.numbers
                && |old(out)| <= |out| && out[..|old(out)|] == old(out) && Concat(out[|old(out)|..]) == w.bytes
      decreases |Unvisited(heap, numbers)|, 2
    {
      hide Ser, SerPair, SerEntries, Unvisited, Concat, After;
      ghost var w, start := numbers, out;
      var i := 0;
      assert es[0..] == es && out[|start|..] == [];
      AfterNothing(SerEntries(heap, es, w));
      AfterAll(heap, numbers, []);
      while i < |es|
        invariant 0 <= i <= |es| && Valid() && NumbersFromOne(numbers)
        invariant w.Keys <= numbers.Keys
        invariant |start| <= |out| && out[..|start|] == start
        invariant SerEntries(heap, es, w) == After(Concat(out[|start|..]), SerEntries(heap, es[i..], numbers))
      {
        VisitedGrows(heap, w, numbers);
        assert es[i..][0] == es[i] && es[i..][1..] == es[i + 1..];
        ghost var mid, wi := out, numbers;
        e := SerializePair(es[i].0, es[i].1);
        if e.Some? {
          PairFails(heap, es[i..], wi, Concat(mid[|start|..]), e.value);
          return;
        }
        Joined(start, mid, out);
        AfterPair(heap, es[i..], wi, Concat(mid[|start|..]), Written(Concat(out[|mid|..]), numbers));
        i := i + 1;
      }
      assert es[i..] == [];
      AfterAll(heap, numbers, Concat(out[|start|..]));
      return None;
    }

    method SerializePair(k: Value, x: Value) returns (e: Option<SerError>)
      requires Valid() && InHeap(heap, k) && InHeap(heap, x) && NumbersFromOne(numbers)
      modifies this
      ensures match SerPair(heap, k, x, old(numbers))
              case Err(y) => e == Some(y)
              case Ok(z) => e == None && Wrote(z) && NumbersFromOne(numbers)
      decreases |Unvisited(heap, numbers)|, 1
    {
      ghost var start, w := out, numbers;
      e := SerializeValue(k);
      if e.Some? { return; }
      ghost var mid := out;
      VisitedGrows(heap, w, numbers);
      e := SerializeValue(x);
      if e.Some? { return; }
      Joined(start, mid, out);
    }
  }

  /** The outcome o of writing the rest, behind the bytes already written. */
  function After(done: ByteString, o: Result<Written, SerError>): Result<Written, SerError> {
    match o
    case Err(e) => Err(e)
    case Ok(w) => Ok(Written(done + w.bytes, w.numbers))
  }

  lemma AfterAll(h: Heap, w: Numbers, done: ByteString)
    requires ClosedHeap(h)
    ensures After(done, SerEntries(h, [], w)) == Ok(Written(done, w)) && Concat([]) == []
  {
    assert done + [] == done;
  }

  lemma AfterNothing(o: Result<Written, SerError>)
    ensures After([], o) == o
  {
    if o.Ok? {
      assert [] + o.value.bytes == o.value.bytes;
    }
  }

  lemma PairFails(h: Heap, es: Entries, w: Numbers, done: ByteString, e: SerError)
    requires ClosedHeap(h) && EntriesInHeap(h, es) && es != []
    requires SerPair(h, es[0].0, es[0].1, w) == Err(e)
    ensures After(done, SerEntries(h, es, w)) == Err(e)
  {
  }

  lemma AfterPair(h: Heap, es: Entries, w: Numbers, done: ByteString, p: Written)
    requires ClosedHeap(h) && EntriesInHeap(h, es) && es != []
    requires SerPair(h, es[0].0, es[0].1, w) == Ok(p)
    ensures After(done, SerEntries(h, es, w)) == After(done + p.bytes, SerEntries(h, es[1..], p.numbers))
  {
    var o := SerEntries(h, es[1..], p.numbers);
    if o.Ok? {
      assert done + (p.bytes + o.value.bytes) == done + p.bytes + o.value.bytes;
    }
  }

  /** What was appended in two steps was appended. */
  lemma Joined(a: seq<ByteString>, b: seq<ByteString>, c: seq<ByteString>)
    requires |a| <= |b| <= |c| && b[..|a|] == a && c[..|b|] == b
    ensures c[..|a|] == a
    ensures Concat(c[|a|..]) == Concat(b[|a|..]) + Concat(c[|b|..])
    ensures |a| < |b| ==> c[|a|] == b[|a|]
  {
    assert c == b + c[|b|..];
    assert c[|a|..] == b[|a|..] + c[|b|..];
    ConcatAppend(b[|a|..], c[|b|..]);
  }

  /** serialize(obj, totable): the list of strings; their concatenation is the string result. */
  method Serialize(h: Heap, v: Value) returns (r: Result<seq<ByteString>, SerError>)
    requires ClosedHeap(h) && InHeap(h, v)
    ensures match Ser(h, v, map[])
            case Err(e) => r == Err(e)
            case Ok(w) => r.Ok? && r.value != [] && r.value[0] != [] && Concat(r.value) == w.bytes
  {
    var writer := new Writer(h);
    var e := writer.SerializeValue(v);
    if e.Some? { return Err(e.value); }
    assert writer.out[0..] == writer.out;
    return Ok(writer.out);
  }

  lemma FirstFrameIn(fs: seq<ByteString>, k: nat)
    requires 1 <= k <= |fs| && fs[0] != []
    ensures |Concat(fs[..k])| > 0
  {
    assert fs[..k][0] == fs[0];
  }

  /** Writing a graph and reading it back, as one string and as the list of strings. */
  method WriteThenRead(h: Heap, v: Value) returns (whole: Result<Outcome, DeError>, frames: Result<Outcome, DeError>)
    requires GoodHeap(h) && InHeap(h, v) && GoodValue(v) && Ser(h, v, map[]).Ok?
    ensures frames == whole && whole.Ok? && whole.value.One?
    ensures whole.value.next == |Ser(h, v, map[]).value.bytes| + 1
    ensures Isomorphic(h, v, whole.value.heap, whole.value.value)
  {
    hide Ser, Isomorphic, Concat;
    var out := Serialize(h, v);
    var fs := out.value;
    RoundTrip(h, v, []);
    ghost var bytes := Ser(h, v, map[]).value.bytes;
    assert bytes + [] == bytes && Concat(fs)[0..] == bytes;
    forall k | 1 <= k <= |fs| ensures |Concat(fs[..k])| > 0 {
      FirstFrameIn(fs, k);
    }
    whole := Deserialize(Whole(Concat(fs)), 1);
    frames := Deserialize(Frames(fs), 1);
  }

  predicate NumbersFromOne(w: Numbers) {
    forall v :: v in w ==> 1 <= w[v]
  }
}
