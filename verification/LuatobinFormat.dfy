/** The luatobin wire format (c/luatobin.c): what the writer emits for a value
    graph and what the reader builds from a byte stream. */
module LuatobinFormat {
  import opened Bytes

  /** A Lua value. Strings are compared by content, functions and tables by identity.
      Other stands for the types luatobin does not know: userdata and threads. */
  datatype Value =
    | Nil
    | Bool(b: bool)
    | Int(n: int)                // a number equal to its lua_Integer
    | Double(bits: ByteString)   // any other number, as its 8 bytes in network order
    | Str(s: ByteString)
    | Fun(id: nat)
    | Tab(id: nat)
    | Other

  type Entries = seq<(Value, Value)>

  /** What an identity stands for. A table lists its entries in the order of lua_next;
      a function carries its dump, None when lua_dump refuses it. */
  datatype Object = Table(entries: Entries) | Function(dump: Option<ByteString>)

  type Heap = map<nat, Object>

  const TAG_NIL: Byte := 0x00
  const TAG_BOOLEAN: Byte := 0x01
  const TAG_DOUBLE: Byte := 0x03
  const TAG_STRING: Byte := 0x04
  const TAG_TABLE: Byte := 0x05
  const TAG_FUNCTION: Byte := 0x06
  const TAG_INTEGER: Byte := 0x07
  const TAG_REF: Byte := 0x14
  const MAX_LENGTH := 0xFFFF
  const MAX_OBJECTS := 0xFFFF

  /** The values that get a number when first met and a back reference afterwards. */
  predicate Cached(v: Value) {
    v.Str? || v.Fun? || v.Tab?
  }

  /** A double that is not a number. */
  predicate IsNaN(bits: ByteString) {
    |bits| == 8 && bits[0] % 128 == 127 && bits[1] >= 0xF0 &&
    (bits[1] % 16 != 0 || exists i :: 2 <= i < 8 && bits[i] != 0)
  }

  /** lua_rawset refuses these as keys. */
  predicate BadKey(k: Value) {
    k.Nil? || (k.Double? && IsNaN(k.bits))
  }

  predicate InHeap(h: Heap, v: Value) {
    match v
    case Double(bits) => |bits| == 8
    case Tab(id) => id in h && h[id].Table?
    case Fun(id) => id in h && h[id].Function?
    case _ => true
  }

  predicate EntriesInHeap(h: Heap, es: Entries) {
    forall i :: 0 <= i < |es| ==> InHeap(h, es[i].0) && InHeap(h, es[i].1)
  }

  predicate ClosedHeap(h: Heap) {
    forall id :: id in h && h[id].Table? ==> EntriesInHeap(h, h[id].entries)
  }

  /* ---- Writer ---- */

  datatype SerError =
    | StringTooLong | FunctionTooLong | TableTooLong | CannotDump | UnsupportedType
    | CounterWraps   // the 16-bit object counter would wrap to 0: beyond this model

  /** The numbers given so far: the n-th object met has number n. */
  type Numbers = map<Value, nat>

  datatype Written = Written(bytes: ByteString, numbers: Numbers)

  function Unvisited(h: Heap, w: Numbers): set<nat> {
    set id | id in h && Tab(id) !in w
  }

  lemma VisitShrinks(h: Heap, w: Numbers, id: nat)
    requires id in h && Tab(id) !in w
    ensures |Unvisited(h, w[Tab(id) := |w| + 1])| < |Unvisited(h, w)|
  {
    assert Unvisited(h, w[Tab(id) := |w| + 1]) == Unvisited(h, w) - {id};
  }

  lemma VisitedGrows(h: Heap, w: Numbers, w': Numbers)
    requires w.Keys <= w'.Keys
    ensures |Unvisited(h, w')| <= |Unvisited(h, w)|
  {
    assert Unvisited(h, w) == Unvisited(h, w') + (Unvisited(h, w) - Unvisited(h, w'));
  }

  /** One value: its bytes and the numbers known afterwards. */
  function Ser(h: Heap, v: Value, w: Numbers): (r: Result<Written, SerError>)
    requires ClosedHeap(h) && InHeap(h, v)
    ensures r.Ok? ==> w.Keys <= r.value.numbers.Keys
    decreases |Unvisited(h, w)|, 0
  {
    if v.Nil? then Ok(Written([TAG_NIL], w))
    else if v.Bool? then Ok(Written([TAG_BOOLEAN, if v.b then 1 else 0], w))
    else if v.Double? then Ok(Written([TAG_DOUBLE] + v.bits, w))
    else if v.Int? then Ok(Written([TAG_INTEGER] + Be32(v.n), w))
    else if v.Other? then Err(UnsupportedType)
    else if v in w then Ok(Written([TAG_REF] + Be16(w[v] % 0x10000), w))
    else if |w| >= MAX_OBJECTS then Err(CounterWraps)
    else
      var w1 := w[v := |w| + 1];
      if v.Str? then
        if |v.s| >= MAX_LENGTH then Err(StringTooLong)
        else Ok(Written([TAG_STRING] + Be16(|v.s|) + v.s, w1))
      else if v.Fun? then
        var dump := h[v.id].dump;
        if dump.None? then Err(CannotDump)
        else if |dump.value| >= MAX_LENGTH then Err(FunctionTooLong)
        else Ok(Written([TAG_FUNCTION] + Be16(|dump.value|) + dump.value, w1))
      else
        VisitShrinks(h, w, v.id);
        var es := h[v.id].entries;
        match SerEntries(h, es, w1)
        case Err(e) => Err(e)
        case Ok(body) =>
          if |es| >= MAX_LENGTH then Err(TableTooLong)
          else Ok(Written([TAG_TABLE] + Be16(|es|) + body.bytes, body.numbers))
  }

  /** A key and its value. */
  function SerPair(h: Heap, k: Value, x: Value, w: Numbers): (r: Result<Written, SerError>)
    requires ClosedHeap(h) && InHeap(h, k) && InHeap(h, x)
    ensures r.Ok? ==> w.Keys <= r.value.numbers.Keys
    decreases |Unvisited(h, w)|, 1
  {
    match Ser(h, k, w)
    case Err(e) => Err(e)
    case Ok(a) =>
      VisitedGrows(h, w, a.numbers);
      match Ser(h, x, a.numbers)
      case Err(e) => Err(e)
      case Ok(b) => Ok(Written(a.bytes + b.bytes, b.numbers))
  }

  /** The keys and values of a table, in turn. */
  function SerEntries(h: Heap, es: Entries, w: Numbers): (r: Result<Written, SerError>)
    requires ClosedHeap(h) && EntriesInHeap(h, es)
    ensures r.Ok? ==> w.Keys <= r.value.numbers.Keys
    decreases |Unvisited(h, w)|, 2, |es|
  {
    if es == [] then Ok(Written([], w)) else
    match SerPair(h, es[0].0, es[0].1, w)
    case Err(e) => Err(e)
    case Ok(p) =>
      VisitedGrows(h, w, p.numbers);
      match SerEntries(h, es[1..], p.numbers)
      case Err(e) => Err(e)
      case Ok(rest) => Ok(Written(p.bytes + rest.bytes, rest.numbers))
  }

  /* ---- Reader ---- */

  datatype DeError = EndOfInput | UnknownTag | InvalidKey

  /** The objects built so far, and the cache with its 16-bit counter. */
  datatype Built = Built(heap: seq<Object>, cache: map<nat, Value>, key: nat)

  const NOTHING_BUILT := Built([], map[], 0)

  datatype Reading = Reading(value: Value, rest: ByteString, built: Built)

  datatype EntriesRead = EntriesRead(rest: ByteString, built: Built)

  /** add_to_cache */
  function AddToCache(r: Built, v: Value): Built {
    var key := (r.key + 1) % 0x10000;
    r.(cache := r.cache[key := v], key := key)
  }

  function FromCache(r: Built, n: nat): Value {
    if n in r.cache then r.cache[n] else Nil
  }

  function IndexOf(es: Entries, k: Value): (i: nat)
    ensures i <= |es|
    ensures i < |es| ==> es[i].0 == k
    ensures i == |es| ==> forall j :: 0 <= j < |es| ==> es[j].0 != k
  {
    if es == [] then 0 else if es[0].0 == k then 0 else 1 + IndexOf(es[1..], k)
  }

  /** t[k] = x on the entries of a table. */
  function RawSet(es: Entries, k: Value, x: Value): Entries {
    var i := IndexOf(es, k);
    if i == |es| then (if x.Nil? then es else es + [(k, x)])
    else if x.Nil? then es[..i] + es[i + 1..]
    else es[i := (k, x)]
  }

  /** The same on table id of a heap. */
  function Store(heap: seq<Object>, id: nat, k: Value, x: Value): seq<Object> {
    if id < |heap| && heap[id].Table? then heap[id := Table(RawSet(heap[id].entries, k, x))] else heap
  }

  /** One value read from the head of a stream. */
  function De(s: ByteString, r: Built): (o: Result<Reading, DeError>)
    ensures o.Ok? ==> |o.value.rest| < |s|
    decreases |s|, 0
  {
    if s == [] then Err(EndOfInput) else
    var t := s[1..];
    if s[0] == TAG_NIL then
      Ok(Reading(Nil, t, r))
    else if s[0] == TAG_BOOLEAN then
      if |t| < 1 then Err(EndOfInput) else Ok(Reading(Bool(t[0] != 0), t[1..], r))
    else if s[0] == TAG_DOUBLE then
      if |t| < 8 then Err(EndOfInput) else Ok(Reading(Double(t[..8]), t[8..], r))
    else if s[0] == TAG_INTEGER then
      if |t| < 4 then Err(EndOfInput) else Ok(Reading(Int(FromBe32(t[..4])), t[4..], r))
    else if s[0] != TAG_REF && s[0] != TAG_STRING && s[0] != TAG_FUNCTION && s[0] != TAG_TABLE then
      Err(UnknownTag)
    else if |t| < 2 then
      Err(EndOfInput)
    else
      var size := FromBe16(t[0], t[1]);
      var u := t[2..];
      if s[0] == TAG_REF then
        Ok(Reading(FromCache(r, size), u, r))
      else if s[0] == TAG_STRING then
        if |u| < size then Err(EndOfInput)
        else Ok(Reading(Str(u[..size]), u[size..], AddToCache(r, Str(u[..size]))))
      else if s[0] == TAG_FUNCTION then
        if |u| < size then Err(EndOfInput)
        else
          var f := Fun(|r.heap|);
          Ok(Reading(f, u[size..], AddToCache(r.(heap := r.heap + [Function(Some(u[..size]))]), f)))
      else
        var tab := Tab(|r.heap|);
        match DeEntries(u, size, tab.id, AddToCache(r.(heap := r.heap + [Table([])]), tab))
        case Err(e) => Err(e)
        case Ok(x) => Ok(Reading(tab, x.rest, x.built))
  }

  /** One key-value pair, stored in table id. */
  function DePair(s: ByteString, id: nat, r: Built): (o: Result<EntriesRead, DeError>)
    ensures o.Ok? ==> |o.value.rest| < |s|
    decreases |s|, 1
  {
    match De(s, r)
    case Err(e) => Err(e)
    case Ok(k) =>
      match De(k.rest, k.built)
      case Err(e) => Err(e)
      case Ok(x) =>
        if BadKey(k.value) then Err(InvalidKey) else
        Ok(EntriesRead(x.rest, x.built.(heap := Store(x.built.heap, id, k.value, x.value))))
  }

  /** n key-value pairs. */
  function DeEntries(s: ByteString, n: nat, id: nat, r: Built): (o: Result<EntriesRead, DeError>)
    ensures o.Ok? ==> |o.value.rest| <= |s|
    decreases |s|, 2, n
  {
    if n == 0 then Ok(EntriesRead(s, r)) else
    match DePair(s, id, r)
    case Err(e) => Err(e)
    case Ok(p) => DeEntries(p.rest, n - 1, id, p.built)
  }
}
