/** Reading back what luatobin wrote rebuilds the value graph, with its sharing and cycles. */
module LuatobinRoundTrip {
  import opened Bytes
  import opened LuatobinFormat

  /** Identities of the source graph mapped to identities of the rebuilt one. */
  type Renaming = map<nat, nat>

  predicate Covers(rho: Renaming, v: Value) {
    (v.Tab? || v.Fun?) ==> v.id in rho
  }

  predicate CoversEntries(rho: Renaming, es: Entries) {
    forall i :: 0 <= i < |es| ==> Covers(rho, es[i].0) && Covers(rho, es[i].1)
  }

  function Renamed(rho: Renaming, v: Value): Value
    requires Covers(rho, v)
  {
    match v
    case Tab(id) => Tab(rho[id])
    case Fun(id) => Fun(rho[id])
    case _ => v
  }

  function RenamedEntries(rho: Renaming, es: Entries): (r: Entries)
    requires CoversEntries(rho, es)
  {
    seq(|es|, i requires 0 <= i < |es| => (Renamed(rho, es[i].0), Renamed(rho, es[i].1)))
  }

  predicate Injective(rho: Renaming) {
    forall a, b :: a in rho && b in rho && rho[a] == rho[b] ==> a == b
  }

  /** Object b of the rebuilt heap is object a of the source heap up to renaming. */
  predicate SameObject(rho: Renaming, a: Object, b: Object) {
    match a
    case Function(_) => b == a
    case Table(es) => CoversEntries(rho, es) && b == Table(RenamedEntries(rho, es))
  }

  /** rho maps every object reachable from v, one to one, to an object of the same content:
      (h, v) and (heap, u) are the same graph. */
  predicate Isomorphism(rho: Renaming, h: Heap, v: Value, heap: seq<Object>, u: Value) {
    && Injective(rho)
    && Covers(rho, v) && u == Renamed(rho, v)
    && forall id :: id in rho ==>
         id in h && rho[id] < |heap| && SameObject(rho, h[id], heap[rho[id]])
  }

  ghost predicate Isomorphic(h: Heap, v: Value, heap: seq<Object>, u: Value) {
    exists rho :: Isomorphism(rho, h, v, heap, u)
  }

  /** What holds of the tables of a Lua state: keys are distinct and neither nil nor NaN, values are
      not nil. The numbers are those that fit the format's 32 bits. */
  predicate GoodValue(v: Value) {
    v.Int? ==> InInt32(v.n)
  }

  predicate GoodEntries(es: Entries) {
    && (forall i :: 0 <= i < |es| ==>
         GoodValue(es[i].0) && GoodValue(es[i].1) && !BadKey(es[i].0) && !es[i].1.Nil?)
    && (forall i, j :: 0 <= i < j < |es| ==> es[i].0 != es[j].0)
  }

  predicate GoodHeap(h: Heap) {
    ClosedHeap(h) && forall id :: id in h && h[id].Table? ==> GoodEntries(h[id].entries)
  }

  /** v has a number, and the reader's cache holds v renamed under that number. */
  predicate Numbered(h: Heap, w: Numbers, r: Built, rho: Renaming, v: Value) {
    && Cached(v) && Covers(rho, v) && InHeap(h, v)
    && v in w && 1 <= w[v] <= |w|
    && w[v] in r.cache && r.cache[w[v]] == Renamed(rho, v)
  }

  /** id is the identity of a numbered object, and its image is one of the same kind. */
  predicate Mapped(h: Heap, w: Numbers, r: Built, rho: Renaming, id: nat) {
    && id in rho && id in h
    && (if h[id].Table? then Tab(id) else Fun(id)) in w
    && rho[id] < |r.heap| && (r.heap[rho[id]].Table? <==> h[id].Table?)
  }

  /** Writer and reader are in step: same count, same objects. */
  predicate InStep(h: Heap, w: Numbers, r: Built, rho: Renaming) {
    && r.key == |w| <= MAX_OBJECTS
    && Injective(rho)
    && (forall v {:trigger Numbered(h, w, r, rho, v)} :: v in w ==> Numbered(h, w, r, rho, v))
    && (forall id {:trigger Mapped(h, w, r, rho, id)} :: id in rho ==> Mapped(h, w, r, rho, id))
  }

  predicate Includes(rho': Renaming, rho: Renaming) {
    forall id :: id in rho ==> id in rho' && rho'[id] == rho[id]
  }

  /** id is mapped to a finished object, at position n of the rebuilt heap or later. */
  predicate Completed(h: Heap, rho: Renaming, n: nat, heap: seq<Object>, id: nat) {
    id in rho && id in h && n <= rho[id] < |heap| && SameObject(rho, h[id], heap[rho[id]])
  }

  /** Every object mapped by rho' but not by rho is complete. */
  predicate Completes(h: Heap, rho: Renaming, n: nat, rho': Renaming, heap: seq<Object>) {
    && Includes(rho', rho)
    && forall id {:trigger Completed(h, rho', n, heap, id)} ::
         id in rho' && id !in rho ==> Completed(h, rho', n, heap, id)
  }

  /** Reading went from (r, rho) to (r', rho'): old objects are untouched, new ones are complete. */
  predicate Extends(h: Heap, rho: Renaming, r: Built, rho': Renaming, r': Built) {
    r.heap <= r'.heap && Completes(h, rho, |r.heap|, rho', r'.heap)
  }

  lemma CoversMore(rho: Renaming, rho': Renaming, es: Entries)
    requires Includes(rho', rho) && CoversEntries(rho, es)
    ensures CoversEntries(rho', es) && RenamedEntries(rho', es) == RenamedEntries(rho, es)
  {
  }

  lemma CompletesTrans(h: Heap, rho0: Renaming, n0: nat, rho1: Renaming, heap1: seq<Object>,
                       n1: nat, rho2: Renaming, heap2: seq<Object>)
    requires Completes(h, rho0, n0, rho1, heap1) && Completes(h, rho1, n1, rho2, heap2)
    requires n0 <= n1 && |heap1| <= |heap2|
    requires forall i :: n0 <= i < |heap1| ==> heap1[i] == heap2[i]
    ensures Completes(h, rho0, n0, rho2, heap2)
  {
    forall id | id in rho2 && id !in rho0 ensures Completed(h, rho2, n0, heap2, id) {
      if id in rho1 {
        assert Completed(h, rho1, n0, heap1, id);
        if h[id].Table? {
          CoversMore(rho1, rho2, h[id].entries);
        }
      } else {
        assert Completed(h, rho2, n1, heap2, id);
      }
    }
  }

  /** What had a number keeps it when the next number is given, and objects are only added. */
  lemma StillNumbered(h: Heap, w: Numbers, r: Built, rho: Renaming, v: Value, w': Numbers, r': Built, rho': Renaming, x: Value)
    requires Numbered(h, w, r, rho, x) && r.key == |w| < MAX_OBJECTS
    requires v !in w && w' == w[v := |w| + 1] && Includes(rho', rho)
    requires r'.cache.Keys == r.cache.Keys + {r.key + 1} && forall n :: n in r.cache && n != r.key + 1 ==> r'.cache[n] == r.cache[n]
    ensures Numbered(h, w', r', rho', x)
  {
    assert |w'| == |w| + 1;
  }

  lemma StillMapped(h: Heap, w: Numbers, r: Built, rho: Renaming, w': Numbers, r': Built, rho': Renaming, id: nat)
    requires Mapped(h, w, r, rho, id) && Includes(rho', rho) && w.Keys <= w'.Keys && r.heap <= r'.heap
    ensures Mapped(h, w', r', rho', id)
  {
  }

  /** Numbering one more string keeps both sides in step. */
  lemma RegisterString(h: Heap, v: Value, w: Numbers, r: Built, rho: Renaming)
    requires InStep(h, w, r, rho) && v.Str? && v !in w && |w| < MAX_OBJECTS
    ensures InStep(h, w[v := |w| + 1], AddToCache(r, v), rho)
  {
    hide Numbered, Mapped, Injective;
    var w', r' := w[v := |w| + 1], AddToCache(r, v);
    assert |w'| == |w| + 1;
    forall x | x in w' ensures Numbered(h, w', r', rho, x) {
      if x == v {
        NewString(h, v, w, r, rho);
      } else {
        StillNumbered(h, w, r, rho, v, w', r', rho, x);
      }
    }
    forall id | id in rho ensures Mapped(h, w', r', rho, id) {
      StillMapped(h, w, r, rho, w', r', rho, id);
    }
  }

  lemma NewString(h: Heap, v: Value, w: Numbers, r: Built, rho: Renaming)
    requires v.Str? && v !in w && r.key == |w| < MAX_OBJECTS
    ensures Numbered(h, w[v := |w| + 1], AddToCache(r, v), rho, v)
  {
    assert |w[v := |w| + 1]| == |w| + 1;
  }

  /** An object that has no number yet has no renaming yet. */
  lemma NotRenamed(h: Heap, v: Value, w: Numbers, r: Built, rho: Renaming)
    requires InStep(h, w, r, rho) && (v.Fun? || v.Tab?) && v !in w && InHeap(h, v)
    ensures v.id !in rho
  {
    assert !Mapped(h, w, r, rho, v.id);
  }

  /** Numbering one more function or table, as a new object of the rebuilt heap, keeps both sides in step. */
  lemma RegisterObject(h: Heap, v: Value, w: Numbers, r: Built, rho: Renaming, o: Object)
    requires InStep(h, w, r, rho) && (v.Fun? || v.Tab?) && v !in w && InHeap(h, v) && |w| < MAX_OBJECTS
    requires v.id !in rho && (o.Table? <==> v.Tab?)
    ensures var n := |r.heap|;
      InStep(h, w[v := |w| + 1],
             AddToCache(r.(heap := r.heap + [o]), if v.Tab? then Tab(n) else Fun(n)), rho[v.id := n])
  {
    hide Numbered, Mapped;
    var n := |r.heap|;
    var w', rho' := w[v := |w| + 1], rho[v.id := n];
    var r' := AddToCache(r.(heap := r.heap + [o]), if v.Tab? then Tab(n) else Fun(n));
    assert |w'| == |w| + 1;
    NewObject(h, v, w, r, rho, o);
    forall x | x in w' ensures Numbered(h, w', r', rho', x) {
      if x != v {
        StillNumbered(h, w, r, rho, v, w', r', rho', x);
      }
    }
    forall id | id in rho' ensures Mapped(h, w', r', rho', id) {
      if id != v.id {
        StillMapped(h, w, r, rho, w', r', rho', id);
      }
    }
    forall a, b | a in rho' && b in rho' && rho'[a] == rho'[b] ensures a == b {
      if a != v.id { Below(h, w, r, rho, a); }
      if b != v.id { Below(h, w, r, rho, b); }
    }
  }

  lemma Below(h: Heap, w: Numbers, r: Built, rho: Renaming, id: nat)
    requires Mapped(h, w, r, rho, id)
    ensures rho[id] < |r.heap|
  {
  }

  lemma NewObject(h: Heap, v: Value, w: Numbers, r: Built, rho: Renaming, o: Object)
    requires (v.Fun? || v.Tab?) && v !in w && InHeap(h, v) && r.key == |w| < MAX_OBJECTS && (o.Table? <==> v.Tab?)
    ensures var n := |r.heap|;
      var w', rho' := w[v := |w| + 1], rho[v.id := n];
      var r' := AddToCache(r.(heap := r.heap + [o]), if v.Tab? then Tab(n) else Fun(n));
      Numbered(h, w', r', rho', v) && Mapped(h, w', r', rho', v.id)
  {
    assert |w[v := |w| + 1]| == |w| + 1;
  }

  /* What the reader does with each form the writer emits. */

  lemma HeaderRead(tag: Byte, n: nat, u: ByteString)
    requires n < 0x10000
    ensures var s := [tag] + Be16(n) + u;
      s[0] == tag && |s[1..]| >= 2 && FromBe16(s[1..][0], s[1..][1]) == n && s[1..][2..] == u
  {
    Be16Inverse(n);
  }

  /** Integers come back truncated to 32 bits. */
  lemma IntRead(n: int, t: ByteString, r: Built)
    ensures De([TAG_INTEGER] + Be32(n) + t, r) == Ok(Reading(Int(Int32(n)), t, r))
  {
    var s := [TAG_INTEGER] + Be32(n) + t;
    assert s[1..] == Be32(n) + t && s[1..][..4] == Be32(n) && s[1..][4..] == t;
    Be32Inverse(n);
  }

  lemma ScalarRead(h: Heap, v: Value, w: Numbers, t: ByteString, r: Built, out: Written)
    requires ClosedHeap(h) && InHeap(h, v) && GoodValue(v) && !Cached(v)
    requires Ser(h, v, w) == Ok(out)
    ensures out.numbers == w && De(out.bytes + t, r) == Ok(Reading(v, t, r))
  {
    hide De, Be32;
    if v.Nil? {
      PlainRead(TAG_NIL, [], t, r);
      assert [TAG_NIL] + [] == [TAG_NIL];
    } else if v.Bool? {
      var b: Byte := if v.b then 1 else 0;
      PlainRead(TAG_BOOLEAN, [b], t, r);
      assert [TAG_BOOLEAN] + [b] == [TAG_BOOLEAN, b];
    } else if v.Double? {
      PlainRead(TAG_DOUBLE, v.bits, t, r);
    } else {
      IntRead(v.n, t, r);
    }
  }

  lemma PlainRead(tag: Byte, body: ByteString, t: ByteString, r: Built)
    ensures tag == TAG_NIL && body == [] ==> De([tag] + body + t, r) == Ok(Reading(Nil, t, r))
    ensures tag == TAG_BOOLEAN && |body| == 1 ==> De([tag] + body + t, r) == Ok(Reading(Bool(body[0] != 0), t, r))
    ensures tag == TAG_DOUBLE && |body| == 8 ==> De([tag] + body + t, r) == Ok(Reading(Double(body), t, r))
  {
    var s := [tag] + body + t;
    assert s[1..] == body + t;
    assert (body + t)[..|body|] == body && (body + t)[|body|..] == t;
  }

  lemma RefRead(n: nat, t: ByteString, r: Built)
    requires n < 0x10000
    ensures De([TAG_REF] + Be16(n) + t, r) == Ok(Reading(FromCache(r, n), t, r))
  {
    HeaderRead(TAG_REF, n, t);
  }

  lemma StringRead(x: ByteString, t: ByteString, r: Built)
    requires |x| < 0x10000
    ensures De([TAG_STRING] + Be16(|x|) + x + t, r) == Ok(Reading(Str(x), t, AddToCache(r, Str(x))))
  {
    HeaderRead(TAG_STRING, |x|, x + t);
    assert [TAG_STRING] + Be16(|x|) + x + t == [TAG_STRING] + Be16(|x|) + (x + t);
  }

  lemma FunctionRead(x: ByteString, t: ByteString, r: Built)
    requires |x| < 0x10000
    ensures De([TAG_FUNCTION] + Be16(|x|) + x + t, r) ==
      Ok(Reading(Fun(|r.heap|), t, AddToCache(r.(heap := r.heap + [Function(Some(x))]), Fun(|r.heap|))))
  {
    HeaderRead(TAG_FUNCTION, |x|, x + t);
    assert [TAG_FUNCTION] + Be16(|x|) + x + t == [TAG_FUNCTION] + Be16(|x|) + (x + t);
  }

  lemma TableRead(h: Heap, v: Value, out: Written, body: ByteString, t: ByteString, r: Built, r1: Built)
    requires v.Tab? && InHeap(h, v) && |h[v.id].entries| < MAX_LENGTH
    requires out.bytes == [TAG_TABLE] + Be16(|h[v.id].entries|) + body
    requires r1 == AddToCache(r.(heap := r.heap + [Table([])]), Tab(|r.heap|))
    ensures var o := DeEntries(body + t, |h[v.id].entries|, |r.heap|, r1);
      o.Ok? ==> De(out.bytes + t, r) == Ok(Reading(Tab(|r.heap|), o.value.rest, o.value.built))
  {
    var n := |h[v.id].entries|;
    assert out.bytes + t == [TAG_TABLE] + Be16(n) + (body + t);
    HeaderRead(TAG_TABLE, n, body + t);
  }

  /** The outcome o of reading back v is v renamed, with t left to read and both sides in step. */
  predicate ReadsBack(h: Heap, v: Value, r: Built, rho: Renaming, t: ByteString,
                      w': Numbers, rho': Renaming, o: Result<Reading, DeError>) {
    && o.Ok? && o.value.rest == t && Covers(rho', v) && o.value.value == Renamed(rho', v)
    && InStep(h, w', o.value.built, rho')
    && Extends(h, rho, r, rho', o.value.built)
  }

  lemma RefWritten(h: Heap, v: Value, w: Numbers, out: Written)
    requires ClosedHeap(h) && InHeap(h, v) && Cached(v) && v in w && w[v] < 0x10000 && Ser(h, v, w) == Ok(out)
    ensures out == Written([TAG_REF] + Be16(w[v]), w)
  {
  }

  lemma NumberOf(h: Heap, v: Value, w: Numbers, r: Built, rho: Renaming)
    requires InStep(h, w, r, rho) && v in w
    ensures Covers(rho, v) && w[v] < 0x10000 && FromCache(r, w[v]) == Renamed(rho, v)
  {
    assert Numbered(h, w, r, rho, v);
  }

  lemma NothingNew(h: Heap, v: Value, w: Numbers, r: Built, rho: Renaming, t: ByteString)
    requires InStep(h, w, r, rho) && Covers(rho, v)
    ensures ReadsBack(h, v, r, rho, t, w, rho, Ok(Reading(Renamed(rho, v), t, r)))
  {
    hide InStep;
  }

  /** Scalars and back references change nothing on either side. */
  lemma KnownBack(h: Heap, v: Value, w: Numbers, r: Built, rho: Renaming, t: ByteString, out: Written)
    requires GoodHeap(h) && InHeap(h, v) && GoodValue(v) && (!Cached(v) || v in w) && InStep(h, w, r, rho)
    requires Ser(h, v, w) == Ok(out)
    ensures ReadsBack(h, v, r, rho, t, out.numbers, rho, De(out.bytes + t, r))
  {
    hide Ser, De, InStep, ReadsBack, Be16;
    if !Cached(v) {
      ScalarRead(h, v, w, t, r, out);
    } else {
      NumberOf(h, v, w, r, rho);
      RefWritten(h, v, w, out);
      RefRead(w[v], t, r);
    }
    NothingNew(h, v, w, r, rho, t);
  }

  lemma StringBack(h: Heap, v: Value, w: Numbers, r: Built, rho: Renaming, t: ByteString, out: Written)
    requires GoodHeap(h) && v.Str? && v !in w && InStep(h, w, r, rho)
    requires Ser(h, v, w) == Ok(out)
    ensures ReadsBack(h, v, r, rho, t, out.numbers, rho, De(out.bytes + t, r))
  {
    StringRead(v.s, t, r);
    RegisterString(h, v, w, r, rho);
  }

  lemma FunctionBack(h: Heap, v: Value, w: Numbers, r: Built, rho: Renaming, t: ByteString, out: Written)
    requires GoodHeap(h) && v.Fun? && v !in w && InHeap(h, v) && InStep(h, w, r, rho)
    requires Ser(h, v, w) == Ok(out)
    ensures ReadsBack(h, v, r, rho, t, out.numbers, rho[v.id := |r.heap|], De(out.bytes + t, r))
  {
    FunctionRead(h[v.id].dump.value, t, r);
    NotRenamed(h, v, w, r, rho);
    RegisterObject(h, v, w, r, rho, h[v.id]);
  }

  lemma TableWritten(h: Heap, v: Value, w: Numbers, out: Written)
    returns (body: Written)
    requires ClosedHeap(h) && v.Tab? && v !in w && InHeap(h, v) && Ser(h, v, w) == Ok(out)
    ensures |w| < MAX_OBJECTS && |h[v.id].entries| < MAX_LENGTH
    ensures SerEntries(h, h[v.id].entries, w[v := |w| + 1]) == Ok(body)
    ensures out == Written([TAG_TABLE] + Be16(|h[v.id].entries|) + body.bytes, body.numbers)
  {
    body := SerEntries(h, h[v.id].entries, w[v := |w| + 1]).value;
  }

  lemma PairWritten(h: Heap, k: Value, x: Value, w: Numbers, out: Written)
    returns (a: Written, b: Written)
    requires ClosedHeap(h) && InHeap(h, k) && InHeap(h, x) && SerPair(h, k, x, w) == Ok(out)
    ensures Ser(h, k, w) == Ok(a) && Ser(h, x, a.numbers) == Ok(b)
    ensures out == Written(a.bytes + b.bytes, b.numbers)
    ensures |Unvisited(h, a.numbers)| <= |Unvisited(h, w)|
  {
    a := Ser(h, k, w).value;
    b := Ser(h, x, a.numbers).value;
    VisitedGrows(h, w, a.numbers);
  }

  lemma EntriesWritten(h: Heap, es: Entries, w: Numbers, out: Written)
    returns (p: Written, rest: Written)
    requires ClosedHeap(h) && EntriesInHeap(h, es) && es != [] && SerEntries(h, es, w) == Ok(out)
    ensures SerPair(h, es[0].0, es[0].1, w) == Ok(p) && SerEntries(h, es[1..], p.numbers) == Ok(rest)
    ensures out == Written(p.bytes + rest.bytes, rest.numbers)
    ensures |Unvisited(h, p.numbers)| <= |Unvisited(h, w)|
  {
    p := SerPair(h, es[0].0, es[0].1, w).value;
    rest := SerEntries(h, es[1..], p.numbers).value;
    VisitedGrows(h, w, p.numbers);
  }

  /** Storing the pair just read. */
  lemma PairStored(s: ByteString, id: nat, r: Built, k: Reading, x: Reading, es: Entries)
    requires id < |r.heap| && r.heap[id].Table?
    requires De(s, r) == Ok(k) && De(k.rest, k.built) == Ok(x)
    requires !BadKey(k.value) && r.heap <= x.built.heap && es == RawSet(r.heap[id].entries, k.value, x.value)
    ensures DePair(s, id, r) == Ok(EntriesRead(x.rest, x.built.(heap := x.built.heap[id := Table(es)])))
  {
    assert x.built.heap[id] == r.heap[id];
  }

  /** Going on with the other pairs. */
  lemma EntriesGoOn(p: ByteString, rest: ByteString, t: ByteString, n: nat, id: nat, r: Built, r1: Built)
    requires n > 0
    requires DePair(p + (rest + t), id, r) == Ok(EntriesRead(rest + t, r1))
    ensures DeEntries(p + rest + t, n, id, r) == DeEntries(rest + t, n - 1, id, r1)
  {
    assert p + rest + t == p + (rest + t);
  }

  /** The main induction: reading the bytes of v, whatever follows them, gives v renamed. */
  lemma {:induction false} ReadBack(h: Heap, v: Value, w: Numbers, r: Built, rho: Renaming, t: ByteString, out: Written)
    returns (rho': Renaming)
    requires GoodHeap(h) && InHeap(h, v) && GoodValue(v) && InStep(h, w, r, rho)
    requires Ser(h, v, w) == Ok(out)
    ensures ReadsBack(h, v, r, rho, t, out.numbers, rho', De(out.bytes + t, r))
    decreases |Unvisited(h, w)|, 0, 1
  {
    hide Ser, De, InStep, ReadsBack;
    rho' := rho;
    if !Cached(v) || v in w {
      KnownBack(h, v, w, r, rho, t, out);
    } else if v.Str? {
      StringBack(h, v, w, r, rho, t, out);
    } else if v.Fun? {
      rho' := rho[v.id := |r.heap|];
      FunctionBack(h, v, w, r, rho, t, out);
    } else {
      rho' := ReadBackTable(h, v, w, r, rho, t, out);
    }
  }

  lemma {:induction false} ReadBackTable(h: Heap, v: Value, w: Numbers, r: Built, rho: Renaming, t: ByteString,
                                         out: Written)
    returns (rho': Renaming)
    requires GoodHeap(h) && v.Tab? && v !in w && InHeap(h, v) && InStep(h, w, r, rho)
    requires Ser(h, v, w) == Ok(out)
    ensures ReadsBack(h, v, r, rho, t, out.numbers, rho', De(out.bytes + t, r))
    decreases |Unvisited(h, w)|, 0, 0
  {
    var es := h[v.id].entries;
    var body := TableWritten(h, v, w, out);
    VisitShrinks(h, w, v.id);
    var r1, rho1 := TableStart(h, v, w, r, rho);
    rho' := ReadBackEntries(h, [], es, w[v := |w| + 1], r1, rho1, t, |r.heap|, body);
    TableRead(h, v, out, body.bytes, t, r, r1);
    assert [] + es == es;
    TableJoin(h, v, r, rho, t, r1, rho1, out.numbers, rho', DeEntries(body.bytes + t, |es|, |r.heap|, r1));
  }

  /** Both sides have just met a new table, still empty on the reader's side. */
  lemma TableStart(h: Heap, v: Value, w: Numbers, r: Built, rho: Renaming)
    returns (r1: Built, rho1: Renaming)
    requires v.Tab? && v !in w && InHeap(h, v) && InStep(h, w, r, rho) && |w| < MAX_OBJECTS
    ensures r1 == AddToCache(r.(heap := r.heap + [Table([])]), Tab(|r.heap|))
    ensures rho1 == rho[v.id := |r.heap|] && v.id !in rho
    ensures InStep(h, w[v := |w| + 1], r1, rho1)
    ensures r1.heap[|r.heap|] == Table(RenamedEntries(rho1, []))
  {
    r1 := AddToCache(r.(heap := r.heap + [Table([])]), Tab(|r.heap|));
    rho1 := rho[v.id := |r.heap|];
    NotRenamed(h, v, w, r, rho);
    RegisterObject(h, v, w, r, rho, Table([]));
  }

  /** Once its entries are stored, a table itself is complete. */
  lemma TableCompletes(h: Heap, id: nat, rho: Renaming, heap: seq<Object>, rho': Renaming, heap': seq<Object>)
    requires id in h && h[id].Table? && id !in rho
    requires Completes(h, rho[id := |heap|], |heap| + 1, rho', heap')
    requires |heap| < |heap'| && CoversEntries(rho', h[id].entries)
    requires heap'[|heap|] == Table(RenamedEntries(rho', h[id].entries))
    ensures Completes(h, rho, |heap|, rho', heap')
  {
    var rho1 := rho[id := |heap|];
    forall x | x in rho ensures x in rho' && rho'[x] == rho[x] {
      assert x in rho1 && rho1[x] == rho[x];
    }
    forall x | x in rho' && x !in rho ensures Completed(h, rho', |heap|, heap', x) {
      if x != id {
        assert Completed(h, rho', |heap| + 1, heap', x);
      }
    }
  }

  /** Reading back the pairs es stores them, renamed, after those in done. */
  predicate EntriesReadBack(h: Heap, all: Entries, r: Built, rho: Renaming, t: ByteString, id: nat,
                            w': Numbers, rho': Renaming, o: Result<EntriesRead, DeError>)
    requires id < |r.heap|
  {
    && o.Ok? && o.value.rest == t
    && InStep(h, w', o.value.built, rho')
    && |r.heap| <= |o.value.built.heap|
    && (forall i :: 0 <= i < |r.heap| && i != id ==> o.value.built.heap[i] == r.heap[i])
    && Completes(h, rho, |r.heap|, rho', o.value.built.heap)
    && CoversEntries(rho', all)
    && o.value.built.heap[id] == Table(RenamedEntries(rho', all))
  }

  lemma StoreInStep(h: Heap, w: Numbers, r: Built, rho: Renaming, id: nat, es: Entries)
    returns (r': Built)
    requires InStep(h, w, r, rho) && id < |r.heap| && r.heap[id].Table?
    ensures r' == r.(heap := r.heap[id := Table(es)])
    ensures InStep(h, w, r', rho)
  {
    r' := r.(heap := r.heap[id := Table(es)]);
    forall x | x in w ensures Numbered(h, w, r', rho, x) {
      assert Numbered(h, w, r, rho, x);
    }
    forall a | a in rho ensures Mapped(h, w, r', rho, a) {
      assert Mapped(h, w, r, rho, a);
    }
  }

  lemma StillRenamed(h: Heap, rho: Renaming, n: nat, rho': Renaming, heap: seq<Object>, v: Value)
    requires Completes(h, rho, n, rho', heap) && Covers(rho, v)
    ensures Covers(rho', v) && Renamed(rho', v) == Renamed(rho, v)
  {
  }

  /** Reading back a key and its value. */
  lemma {:induction false} ReadBackBoth(h: Heap, k: Value, x: Value, w: Numbers, r: Built, rho: Renaming,
                                        t: ByteString, p: Written)
    returns (rho': Renaming, rk: Reading, rx: Reading)
    requires GoodHeap(h) && InHeap(h, k) && InHeap(h, x) && GoodValue(k) && GoodValue(x) && InStep(h, w, r, rho)
    requires SerPair(h, k, x, w) == Ok(p)
    ensures De(p.bytes + t, r) == Ok(rk) && De(rk.rest, rk.built) == Ok(rx) && rx.rest == t
    ensures InStep(h, p.numbers, rx.built, rho') && Extends(h, rho, r, rho', rx.built)
    ensures Covers(rho', k) && rk.value == Renamed(rho', k) && Covers(rho', x) && rx.value == Renamed(rho', x)
    decreases |Unvisited(h, w)|, 0, 2
  {
    hide Ser, SerPair, SerEntries, De, DePair, DeEntries, InStep, Injective, Unvisited, Completes;
    var sk, sx := PairWritten(h, k, x, w, p);
    var rho1 := ReadBack(h, k, w, r, rho, sx.bytes + t, sk);
    assert p.bytes + t == sk.bytes + (sx.bytes + t);
    rk := De(sk.bytes + (sx.bytes + t), r).value;
    rho' := ReadBack(h, x, sk.numbers, rk.built, rho1, t, sx);
    rx := De(sx.bytes + t, rk.built).value;
    StillRenamed(h, rho1, |rk.built.heap|, rho', rx.built.heap, k);
    CompletesTrans(h, rho, |r.heap|, rho1, rk.built.heap, |rk.built.heap|, rho', rx.built.heap);
  }

  /** Reading back a key and its value, and storing them. */
  lemma {:induction false} ReadBackPair(h: Heap, done: Entries, k: Value, x: Value, w: Numbers, r: Built, rho: Renaming,
                                        t: ByteString, id: nat, p: Written)
    returns (rho': Renaming, r': Built)
    requires GoodHeap(h) && InHeap(h, k) && InHeap(h, x) && GoodEntries(done + [(k, x)]) && InStep(h, w, r, rho)
    requires SerPair(h, k, x, w) == Ok(p)
    requires CoversEntries(rho, done)
    requires id < |r.heap| && r.heap[id] == Table(RenamedEntries(rho, done))
    ensures DePair(p.bytes + t, id, r) == Ok(EntriesRead(t, r'))
    ensures EntriesReadBack(h, done + [(k, x)], r, rho, t, id, p.numbers, rho', Ok(EntriesRead(t, r')))
    decreases |Unvisited(h, w)|, 0, 3
  {
    var done' := done + [(k, x)];
    assert done'[|done|] == (k, x);
    var rk, rx;
    rho', rk, rx := ReadBackBoth(h, k, x, w, r, rho, t, p);
    CoversMore(rho, rho', done);
    forall j | 0 <= j < |done| ensures done[j].0 != k {
      assert done'[j] == done[j];
    }
    Append(rho', done, k, x);
    var es := RenamedEntries(rho', done');
    r' := StoreInStep(h, p.numbers, rx.built, rho', id, es);
    PairStored(p.bytes + t, id, r, rk, rx, es);
    CompletesAfterStore(h, rho, |r.heap|, rho', rx.built.heap, id, Table(es));
  }

  lemma CompletesAfterStore(h: Heap, rho: Renaming, n: nat, rho': Renaming, heap: seq<Object>, id: nat, o: Object)
    requires Completes(h, rho, n, rho', heap) && id < n <= |heap|
    ensures Completes(h, rho, n, rho', heap[id := o])
  {
    forall x | x in rho' && x !in rho ensures Completed(h, rho', n, heap[id := o], x) {
      assert Completed(h, rho', n, heap, x);
    }
  }

  /** A table is read back once all its entries are. */
  lemma TableJoin(h: Heap, v: Value, r: Built, rho: Renaming, t: ByteString, r1: Built, rho1: Renaming,
                  w': Numbers, rho': Renaming, o: Result<EntriesRead, DeError>)
    requires v.Tab? && InHeap(h, v) && v.id !in rho
    requires rho1 == rho[v.id := |r.heap|] && r1.heap == r.heap + [Table([])]
    requires EntriesReadBack(h, h[v.id].entries, r1, rho1, t, |r.heap|, w', rho', o)
    ensures ReadsBack(h, v, r, rho, t, w', rho', Ok(Reading(Tab(|r.heap|), o.value.rest, o.value.built)))
  {
    var b := o.value.built.heap;
    assert v.id in rho1;
    assert forall i :: 0 <= i < |r.heap| ==> b[i] == r1.heap[i];
    assert r.heap <= b;
    TableCompletes(h, v.id, rho, r.heap, rho', b);
  }

  /** Some entries read and stored, then the others, is all of them. */
  lemma EntriesJoin(h: Heap, some: Entries, all: Entries, r: Built, rho: Renaming, t: ByteString, t1: ByteString, id: nat,
                    w1: Numbers, rho1: Renaming, r1: Built,
                    w': Numbers, rho': Renaming, o: Result<EntriesRead, DeError>)
    requires id < |r.heap|
    requires EntriesReadBack(h, some, r, rho, t1, id, w1, rho1, Ok(EntriesRead(t1, r1)))
    requires EntriesReadBack(h, all, r1, rho1, t, id, w', rho', o)
    ensures EntriesReadBack(h, all, r, rho, t, id, w', rho', o)
  {
    CompletesTrans(h, rho, |r.heap|, rho1, r1.heap, |r1.heap|, rho', o.value.built.heap);
  }

  lemma {:induction false} ReadBackEntries(h: Heap, done: Entries, es: Entries, w: Numbers, r: Built, rho: Renaming,
                                           t: ByteString, id: nat, out: Written)
    returns (rho': Renaming)
    requires GoodHeap(h) && EntriesInHeap(h, es) && GoodEntries(done + es) && InStep(h, w, r, rho)
    requires SerEntries(h, es, w) == Ok(out)
    requires CoversEntries(rho, done)
    requires id < |r.heap| && r.heap[id] == Table(RenamedEntries(rho, done))
    ensures EntriesReadBack(h, done + es, r, rho, t, id, out.numbers, rho', DeEntries(out.bytes + t, |es|, id, r))
    decreases |Unvisited(h, w)|, |es| + 1, 4
  {
    if es == [] {
      rho' := rho;
      assert done + es == done && out.bytes + t == t;
    } else {
      rho' := ReadBackMore(h, done, es, w, r, rho, t, id, out);
    }
  }

  lemma {:induction false} ReadBackMore(h: Heap, done: Entries, es: Entries, w: Numbers, r: Built, rho: Renaming,
                                        t: ByteString, id: nat, out: Written)
    returns (rho': Renaming)
    requires GoodHeap(h) && EntriesInHeap(h, es) && GoodEntries(done + es) && InStep(h, w, r, rho)
    requires SerEntries(h, es, w) == Ok(out) && es != []
    requires CoversEntries(rho, done)
    requires id < |r.heap| && r.heap[id] == Table(RenamedEntries(rho, done))
    ensures EntriesReadBack(h, done + es, r, rho, t, id, out.numbers, rho', DeEntries(out.bytes + t, |es|, id, r))
    decreases |Unvisited(h, w)|, |es| + 1, 3
  {
    hide Ser, SerPair, SerEntries, De, DePair, DeEntries, InStep, GoodEntries, Unvisited, Completes;
    var p, rest := EntriesWritten(h, es, w, out);
    var done' := done + [es[0]];
    assert done' + es[1..] == done + es;
    GoodPrefix(done', es[1..]);
    var rho1, r1 := ReadBackPair(h, done, es[0].0, es[0].1, w, r, rho, rest.bytes + t, id, p);
    rho' := ReadBackEntries(h, done', es[1..], p.numbers, r1, rho1, t, id, rest);
    EntriesGoOn(p.bytes, rest.bytes, t, |es|, id, r, r1);
    EntriesJoin(h, done', done + es, r, rho, t, rest.bytes + t, id, p.numbers, rho1, r1, out.numbers, rho',
                DeEntries(rest.bytes + t, |es| - 1, id, r1));
  }

  lemma GoodPrefix(a: Entries, b: Entries)
    requires GoodEntries(a + b)
    ensures GoodEntries(a)
  {
    assert a == (a + b)[..|a|];
  }

  /** Storing the next renamed pair in a table under construction appends it. */
  lemma Append(rho: Renaming, done: Entries, k: Value, x: Value)
    requires Injective(rho) && CoversEntries(rho, done) && Covers(rho, k) && Covers(rho, x)
    requires forall j :: 0 <= j < |done| ==> done[j].0 != k
    requires !x.Nil?
    ensures RawSet(RenamedEntries(rho, done), Renamed(rho, k), Renamed(rho, x)) == RenamedEntries(rho, done + [(k, x)])
  {
  }

  /* ---- When the writer succeeds ---- */

  /** The limits of the format on one value and on the object behind it. */
  predicate WithinLimits(h: Heap, v: Value)
    requires InHeap(h, v)
  {
    match v
    case Str(s) => |s| < MAX_LENGTH
    case Fun(id) => h[id].dump.Some? && |h[id].dump.value| < MAX_LENGTH
    case Tab(id) => |h[id].entries| < MAX_LENGTH
    case Other => false
    case _ => true
  }

  /** all holds every string, function and table that can be reached, each within the limits. */
  predicate AllWithinLimits(h: Heap, all: set<Value>) {
    && |all| <= MAX_OBJECTS
    && (forall v :: v in all ==> InHeap(h, v) && WithinLimits(h, v))
    && (forall id, i :: Tab(id) in all && id in h && h[id].Table? && 0 <= i < |h[id].entries| ==>
          Allowed(all, h[id].entries[i].0) && Allowed(all, h[id].entries[i].1))
  }

  predicate Allowed(all: set<Value>, v: Value) {
    !v.Other? && (Cached(v) ==> v in all)
  }

  lemma {:induction false} SerSucceeds(h: Heap, v: Value, w: Numbers, all: set<Value>)
    requires ClosedHeap(h) && InHeap(h, v) && AllWithinLimits(h, all) && Allowed(all, v) && w.Keys <= all
    ensures Ser(h, v, w).Ok? && Ser(h, v, w).value.numbers.Keys <= all
    decreases |Unvisited(h, w)|, 0
  {
    if Cached(v) && v !in w {
      FewerThan(w.Keys, all, v);
      assert |w| == |w.Keys|;
      if v.Tab? {
        VisitShrinks(h, w, v.id);
        SerEntriesSucceeds(h, h[v.id].entries, w[v := |w| + 1], all);
      }
    }
  }

  lemma {:induction false} SerEntriesSucceeds(h: Heap, es: Entries, w: Numbers, all: set<Value>)
    requires ClosedHeap(h) && EntriesInHeap(h, es) && AllWithinLimits(h, all) && w.Keys <= all
    requires forall i :: 0 <= i < |es| ==> Allowed(all, es[i].0) && Allowed(all, es[i].1)
    ensures SerEntries(h, es, w).Ok? && SerEntries(h, es, w).value.numbers.Keys <= all
    decreases |Unvisited(h, w)|, 2, |es|
  {
    if es != [] {
      SerSucceeds(h, es[0].0, w, all);
      var w1 := Ser(h, es[0].0, w).value.numbers;
      VisitedGrows(h, w, w1);
      SerSucceeds(h, es[0].1, w1, all);
      var w2 := SerPair(h, es[0].0, es[0].1, w).value.numbers;
      VisitedGrows(h, w, w2);
      SerEntriesSucceeds(h, es[1..], w2, all);
    }
  }

  lemma FewerThan(a: set<Value>, b: set<Value>, v: Value)
    requires a <= b && v in b && v !in a
    ensures |a| < |b|
  {
    assert |b - {v}| == |b| - 1;
    assert a <= b - {v};
    assert b - {v} == a + (b - {v} - a);
  }

  /* ---- Main results ---- */

  /** Serialising any graph that the format can hold and deserialising the result, whatever bytes
      follow it, gives an isomorphic graph and stops exactly at the end of it. */
  lemma RoundTrip(h: Heap, v: Value, t: ByteString)
    requires GoodHeap(h) && InHeap(h, v) && GoodValue(v)
    requires Ser(h, v, map[]).Ok?
    ensures var o := De(Ser(h, v, map[]).value.bytes + t, NOTHING_BUILT);
      && o.Ok? && o.value.rest == t
      && Isomorphic(h, v, o.value.built.heap, o.value.value)
  {
    var out := Ser(h, v, map[]).value;
    var rho := ReadBack(h, v, map[], NOTHING_BUILT, map[], t, out);
    var o := De(out.bytes + t, NOTHING_BUILT).value;
    assert forall id :: id in rho ==> Completed(h, rho, 0, o.built.heap, id);
    assert Isomorphism(rho, h, v, o.built.heap, o.value);
  }

  /** Every graph within the limits of the format, shared and cyclic parts included, survives a round trip. */
  lemma RoundTripWithinLimits(h: Heap, v: Value, all: set<Value>, t: ByteString)
    requires GoodHeap(h) && InHeap(h, v) && GoodValue(v)
    requires AllWithinLimits(h, all) && Allowed(all, v)
    ensures Ser(h, v, map[]).Ok?
    ensures var o := De(Ser(h, v, map[]).value.bytes + t, NOTHING_BUILT);
      o.Ok? && o.value.rest == t && Isomorphic(h, v, o.value.built.heap, o.value.value)
  {
    SerSucceeds(h, v, map[], all);
    RoundTrip(h, v, t);
  }

  /** Integers are written with 32 bits: the round trip keeps exactly those that fit. */
  lemma IntRoundTripIff(h: Heap, n: int, t: ByteString)
    requires ClosedHeap(h)
    ensures Ser(h, Int(n), map[]).Ok?
    ensures var o := De(Ser(h, Int(n), map[]).value.bytes + t, NOTHING_BUILT);
      && o.Ok? && o.value.value == Int(Int32(n))
      && (Isomorphic(h, Int(n), o.value.built.heap, o.value.value) <==> InInt32(n))
  {
    IntRead(n, t, NOTHING_BUILT);
    if InInt32(n) {
      assert Isomorphism(map[], h, Int(n), [], Int(Int32(n)));
    }
  }
}
