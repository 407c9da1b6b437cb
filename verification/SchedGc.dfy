/** Garbage collection of cells cannot be observed: with or without it, a run resumes the same tasks and runs the same
    hooks in the same order. */
module SchedGc {
  import opened Bytes
  import opened SchedModel
  import opened SchedConservation
  import opened SchedQueues
  import opened SchedOrder

  /** The cells of a queue that are not emptied. */
  function LiveOf(s: State, q: seq<CellId>): seq<CellId> {
    if q == [] then [] else (if Full(s, q[0]) then [q[0]] else []) + LiveOf(s, q[1..])
  }

  /** Everything but emptied cells in queues, and empty queues, is the same. */
  ghost predicate Same(s: State, t: State) {
    && t == s.(waiting := t.waiting)
    && forall p {:trigger Queue(s.waiting, p)} {:trigger Queue(t.waiting, p)} ::
         LiveOf(s, Queue(s.waiting, p)) == LiveOf(t, Queue(t.waiting, p))
  }

  /** No cell that is not emptied holds a dead task. */
  ghost predicate NoneDead(s: State) {
    forall c {:trigger Collectable(s, c)} :: Full(s, c) ==> !Collectable(s, c)
  }

  /** Queues hold existing cells only. */
  ghost predicate InRange(s: State) {
    forall c, p {:trigger c in Queue(s.waiting, p)} :: c in Queue(s.waiting, p) ==> c < |s.cells|
  }

  predicate Within(s: State, q: seq<CellId>) {
    forall c :: c in q ==> c < |s.cells|
  }

  /* ---- The script without collections ---- */

  function Erased(effect: Effect): Effect
    decreases effect
  {
    if effect.Emit? then Emit(effect.emitter, effect.event, AllErased(effect.star), AllErased(effect.named)) else effect
  }

  function ScriptErased(script: Script): Script
    decreases script
  {
    match script
    case Done => Done
    case Do(effect, next) => if effect == Collect then ScriptErased(next) else Do(Erased(effect), ScriptErased(next))
  }

  function AllErased(runs: Scripts): Scripts
    decreases runs
  {
    match runs
    case NoMore => NoMore
    case Next(body, ends, rest) => Next(ScriptErased(body), ends, AllErased(rest))
  }

  lemma {:induction false} ErasedQuiet(effect: Effect)
    requires Quiet(effect)
    ensures Quiet(Erased(effect))
    decreases effect
  {
    if effect.Emit? {
      AllErasedQuiet(effect.star);
      AllErasedQuiet(effect.named);
    }
  }

  lemma {:induction false} ScriptErasedQuiet(script: Script)
    requires ScriptQuiet(script)
    ensures ScriptQuiet(ScriptErased(script))
    decreases script
  {
    if script.Do? {
      ErasedQuiet(script.effect);
      ScriptErasedQuiet(script.next);
    }
  }

  lemma {:induction false} AllErasedQuiet(runs: Scripts)
    requires AllQuiet(runs)
    ensures AllQuiet(AllErased(runs))
    decreases runs
  {
    if runs.Next? {
      ScriptErasedQuiet(runs.body);
      AllErasedQuiet(runs.rest);
    }
  }

  /* ---- Live parts of queues ---- */

  lemma {:induction false} LiveAppend(s: State, a: seq<CellId>, b: seq<CellId>)
    ensures LiveOf(s, a + b) == LiveOf(s, a) + LiveOf(s, b)
  {
    if a == [] {
      assert a + b == b;
    } else {
      assert (a + b)[1..] == a[1..] + b;
      LiveAppend(s, a[1..], b);
    }
  }

  /** Once more cells are emptied, the live part is the live part of what was live before. */
  lemma {:induction false} LiveLater(s: State, s': State, q: seq<CellId>)
    requires forall c {:trigger Full(s', c)} :: c in q && Full(s', c) ==> Full(s, c)
    ensures LiveOf(s', q) == LiveOf(s', LiveOf(s, q))
  {
    if q != [] {
      LiveLater(s, s', q[1..]);
      LiveAppend(s', if Full(s, q[0]) then [q[0]] else [], LiveOf(s, q[1..]));
    }
  }

  lemma {:induction false} LiveKept(s: State, q: seq<CellId>)
    requires NoneDead(s)
    ensures LiveOf(s, Kept(s, q)) == LiveOf(s, q)
  {
    if q != [] {
      LiveKept(s, q[1..]);
      assert Full(s, q[0]) <==> !Collectable(s, q[0]);
      LiveAppend(s, if Collectable(s, q[0]) then [] else [q[0]], Kept(s, q[1..]));
    }
  }

  lemma {:induction false} LiveSame(s: State, t: State, q: seq<CellId>)
    requires t.cells == s.cells
    ensures LiveOf(s, q) == LiveOf(t, q)
  {
    if q != [] {
      LiveSame(s, t, q[1..]);
    }
  }

  /** Collecting changes nothing that matters. */
  lemma CollectedSame(s: State)
    requires NoneDead(s)
    ensures Same(s, Collected(s))
  {
    var t := Collected(s);
    forall p: Place ensures LiveOf(s, Queue(s.waiting, p)) == LiveOf(t, Queue(t.waiting, p)) {
      CollectedQueue(s, p);
      LiveKept(s, Queue(s.waiting, p));
      LiveSame(s, t, Queue(t.waiting, p));
    }
  }

  /* ---- Steps that keep the likeness ---- */

  lemma CellsChange(s: State, t: State, cells: seq<Cell>)
    requires Same(s, t) && InRange(s) && InRange(t)
    requires forall c {:trigger cells[c]} :: 0 <= c < |s.cells| && c < |cells| && cells[c] != Empty ==> Full(s, c)
    ensures Same(s.(cells := cells), t.(cells := cells))
  {
    var s', t' := s.(cells := cells), t.(cells := cells);
    forall p: Place ensures LiveOf(s', Queue(s.waiting, p)) == LiveOf(t', Queue(t.waiting, p)) {
      LiveLater(s, s', Queue(s.waiting, p));
      LiveLater(t, t', Queue(t.waiting, p));
      LiveSame(s', t', LiveOf(s, Queue(s.waiting, p)));
    }
  }

  lemma QueueGrows(s: State, t: State, s': State, t': State, p: Place, more: seq<CellId>)
    requires LiveOf(s, Queue(s.waiting, p)) == LiveOf(t, Queue(t.waiting, p)) && t.cells == s.cells
    requires s'.cells == s.cells && t'.cells == t.cells
    requires Queue(s'.waiting, p) == Queue(s.waiting, p) + more && Queue(t'.waiting, p) == Queue(t.waiting, p) + more
    ensures LiveOf(s', Queue(s'.waiting, p)) == LiveOf(t', Queue(t'.waiting, p))
  {
    LiveAppend(s, Queue(s.waiting, p), more);
    LiveAppend(t, Queue(t.waiting, p), more);
    LiveSame(s, t, more);
    LiveSame(s, s', Queue(s'.waiting, p));
    LiveSame(t, t', Queue(t'.waiting, p));
  }

  lemma AppendSame(s: State, t: State, p: Place, c: CellId)
    requires Same(s, t)
    ensures Same(s.(waiting := Appended(s.waiting, p, c)), t.(waiting := Appended(t.waiting, p, c)))
  {
    var s', t' := s.(waiting := Appended(s.waiting, p, c)), t.(waiting := Appended(t.waiting, p, c));
    forall x: Place ensures LiveOf(s', Queue(s'.waiting, x)) == LiveOf(t', Queue(t'.waiting, x)) {
      QueueGrows(s, t, s', t', x, if x == p then [c] else []);
    }
  }

  lemma AddSame(s: State, t: State, cell: Cell, es: seq<Emitter>, entries: seq<Entry>)
    requires Same(s, t) && InRange(s) && InRange(t)
    ensures Same(Added(s, cell, es, entries), Added(t, cell, es, entries))
  {
    var c, cells := |s.cells|, s.cells + [cell];
    CellsChange(s, t, cells);
    var s1, t1 := s.(cells := cells), t.(cells := cells);
    var s', t' := Added(s, cell, es, entries), Added(t, cell, es, entries);
    forall p: Place ensures LiveOf(s', Queue(s'.waiting, p)) == LiveOf(t', Queue(t'.waiting, p)) {
      RegisteredAllQueue(s.waiting, es, entries, c, p);
      RegisteredAllQueue(t.waiting, es, entries, c, p);
      QueueGrows(s1, t1, s', t', p, Repeats(AllPlaces(es, entries), p, c));
    }
  }

  lemma EmptySame(s: State, t: State, c: CellId)
    requires Same(s, t) && InRange(s) && InRange(t)
    ensures Same(Emptied(s, c), Emptied(t, c))
  {
    if c < |s.cells| {
      CellsChange(s, t, s.cells[c := Empty]);
    }
  }

  /** Fields that say nothing of the queues. */
  lemma FieldsSame(s: State, t: State, s': State, t': State)
    requires Same(s, t)
    requires s' == s.(ready := s'.ready, running := s'.running, tasks := s'.tasks, dead := s'.dead,
                      stuck := s'.stuck, spares := s'.spares, processing := s'.processing, log := s'.log)
    requires t' == s'.(waiting := t.waiting)
    ensures Same(s', t')
  {
    forall p: Place ensures LiveOf(s', Queue(s'.waiting, p)) == LiveOf(t', Queue(t'.waiting, p)) {
      LiveSame(s, s', Queue(s.waiting, p));
      LiveSame(t, t', Queue(t.waiting, p));
    }
  }

  lemma AfterHookSame(s: State, t: State, p: Place, c: CellId, ends: Ending)
    requires Same(s, t) && InRange(s) && InRange(t)
    ensures Same(AfterHook(s, p, c, ends), AfterHook(t, p, c, ends))
  {
    EmptySame(s, t, c);
    AppendSame(s, t, p, c);
  }

  /* ---- What stays in order for collection to be harmless ---- */

  ghost predicate Tidy(s: State) { NoneDead(s) && InRange(s) }

  lemma StillNone(s: State, s': State)
    requires NoneDead(s) && s'.dead == s.dead
    requires forall c {:trigger CellOf(s', c)} :: CellOf(s', c) == CellOf(s, c) || CellOf(s', c) == Empty
    ensures NoneDead(s')
  {
    forall c: CellId ensures Full(s', c) ==> !Collectable(s', c) {
      assert Full(s, c) ==> !Collectable(s, c);
    }
  }

  lemma AgesTidy(s: State, s': State)
    requires NoneDead(s) && forall c {:trigger AgedQuietly(s, s', c)} :: AgedQuietly(s, s', c)
    ensures NoneDead(s')
  {
    forall c: CellId ensures Full(s', c) ==> !Collectable(s', c) {
      assert AgedQuietly(s, s', c) && (Full(s, c) ==> !Collectable(s, c));
    }
  }

  lemma ApplyTidy(s: State, effect: Effect)
    requires Tidy(s) && Quiet(effect)
    ensures Tidy(Apply(s, effect))
  {
    var s' := Apply(s, effect);
    forall c: CellId ensures AgedQuietly(s, s', c) {
      ApplyAges(s, effect, c);
    }
    AgesTidy(s, s');
    forall c: CellId, p: Place | c in Queue(s'.waiting, p) ensures c < |s'.cells| {
      if c >= |s.cells| {
        ApplyLocated(s, effect, c, p, false);
      } else {
        assert AgedQuietly(s, s', c);
      }
    }
  }

  lemma {:induction false} PerformTidy(s: State, script: Script)
    requires Tidy(s) && ScriptQuiet(script)
    ensures Tidy(Perform(s, script))
    decreases script
  {
    match script {
      case Done =>
      case Do(effect, next) =>
        ApplyTidy(s, effect);
        PerformTidy(Apply(s, effect), next);
    }
  }

  lemma AfterHookTidy(s: State, p: Place, c: CellId, ends: Ending)
    requires Tidy(s) && c < |s.cells|
    ensures Tidy(AfterHook(s, p, c, ends))
  {
    var s' := AfterHook(s, p, c, ends);
    StillNone(s, s');
    forall x: CellId, at: Place | x in Queue(s'.waiting, at) ensures x < |s'.cells| {
      assert x == c || x in Queue(s.waiting, at);
    }
  }

  lemma EmptiedTidy(s: State, c: CellId)
    requires Tidy(s)
    ensures Tidy(Emptied(s, c))
  {
    var s' := Emptied(s, c);
    StillNone(s, s');
  }

  lemma LoggedTidy(s: State, s': State)
    requires Tidy(s) && s' == s.(log := s'.log, processing := s'.processing, ready := s'.ready)
    ensures Tidy(s')
  {
    StillNone(s, s');
  }

  /* ---- The same signals, with and without collections ---- */

  ghost predicate Alike(s: State, t: State) { Same(s, t) && Tidy(s) && Tidy(t) }

  /** The same cells are due, in the same order. */
  predicate SameDue(s: State, q: seq<CellId>, t: State, r: seq<CellId>) {
    Within(s, q) && Within(t, r) && LiveOf(s, q) == LiveOf(t, r)
  }

  lemma DueLater(s: State, q: seq<CellId>, t: State, r: seq<CellId>, s': State, t': State)
    requires SameDue(s, q, t, r) && s.cells == t.cells && s'.cells == t'.cells
    requires forall c {:trigger Aged(s, s', c)} :: Aged(s, s', c)
    ensures SameDue(s', q, t', r)
  {
    forall c | c in q || c in r ensures c < |s'.cells| && (Full(s', c) ==> Full(s, c)) {
      assert Aged(s, s', c);
    }
    LiveLater(s, s', q);
    LiveLater(t, t', r);
    LiveSame(s', t', LiveOf(s, q));
  }

  lemma {:induction false} RunQueueSame(s: State, t: State, p: Place, ev: Event, q: seq<CellId>, r: seq<CellId>,
                                        woken: seq<Wake>, runs: Scripts)
    requires Alike(s, t) && SameDue(s, q, t, r) && AllQuiet(runs)
    ensures var a, b := RunQueue(s, p, ev, q, woken, runs), RunQueue(t, p, ev, r, woken, AllErased(runs));
      Alike(a.state, b.state) && a.woken == b.woken
    decreases runs, |q| + |r|, 1
  {
    hide Alike, SameDue;
    SameCells(s, t);
    Heads(s, q, t, r);
    if q != [] && !Full(s, q[0]) {
      RunQueueSame(s, t, p, ev, q[1..], r, woken, runs);
    } else if r != [] && !Full(t, r[0]) {
      RunQueueSame(s, t, p, ev, q, r[1..], woken, runs);
    } else if q != [] {
      var c := q[0];
      if CellOf(s, c).Waiter? {
        var s1, t1 := Emptied(s, c), Emptied(t, c);
        EmptyAlike(s, t, c);
        forall x: CellId ensures Aged(s, s1, x) {
        }
        DueLater(s, q[1..], t, r[1..], s1, t1);
        RunQueueSame(s1, t1, p, ev, q[1..], r[1..], woken + [WakeFor(CellOf(s, c), p.emitter, ev)], runs);
      } else {
        HookSame(s, t, p, ev, q, r, woken, runs);
      }
    }
  }

  lemma SameCells(s: State, t: State)
    requires Alike(s, t)
    ensures t == s.(waiting := t.waiting)
  {
  }

  lemma WithinTail(s: State, q: seq<CellId>)
    requires Within(s, q) && q != []
    ensures Within(s, q[1..])
  {
    forall c | c in q[1..] ensures c in q {
    }
  }

  lemma Heads(s: State, q: seq<CellId>, t: State, r: seq<CellId>)
    requires SameDue(s, q, t, r) && s.cells == t.cells
    ensures q != [] && !Full(s, q[0]) ==> SameDue(s, q[1..], t, r)
    ensures r != [] && !Full(t, r[0]) ==> SameDue(s, q, t, r[1..])
    ensures (q != [] ==> Full(s, q[0])) && (r != [] ==> Full(t, r[0])) ==>
              if q == [] then r == [] else r != [] && q[0] == r[0] && q[0] < |s.cells| && SameDue(s, q[1..], t, r[1..])
  {
    if q != [] { WithinTail(s, q); }
    if r != [] { WithinTail(t, r); }
    if q != [] && Full(s, q[0]) {
      assert LiveOf(s, q)[0] == q[0] && LiveOf(s, q)[1..] == LiveOf(s, q[1..]);
    }
    if r != [] && Full(t, r[0]) {
      assert LiveOf(t, r)[0] == r[0] && LiveOf(t, r)[1..] == LiveOf(t, r[1..]);
    }
  }

  lemma EmptyAlike(s: State, t: State, c: CellId)
    requires Alike(s, t)
    ensures Alike(Emptied(s, c), Emptied(t, c))
  {
    EmptySame(s, t, c);
    EmptiedTidy(s, c);
    EmptiedTidy(t, c);
  }

  lemma LogAlike(s: State, t: State, c: CellId)
    requires Alike(s, t)
    ensures Alike(s.(log := s.log + [c]), t.(log := t.log + [c]))
  {
    var s', t' := s.(log := s.log + [c]), t.(log := t.log + [c]);
    FieldsSame(s, t, s', t');
    LoggedTidy(s, s');
    LoggedTidy(t, t');
  }

  lemma AfterHookAlike(s: State, t: State, p: Place, c: CellId, ends: Ending)
    requires Alike(s, t) && c < |s.cells|
    ensures Alike(AfterHook(s, p, c, ends), AfterHook(t, p, c, ends))
  {
    AfterHookSame(s, t, p, c, ends);
    AfterHookTidy(s, p, c, ends);
    AfterHookTidy(t, p, c, ends);
  }

  lemma HookSame(s: State, t: State, p: Place, ev: Event, q: seq<CellId>, r: seq<CellId>, woken: seq<Wake>, runs: Scripts)
    requires Alike(s, t) && q != [] && r != [] && q[0] == r[0] && q[0] < |s.cells| && SameDue(s, q[1..], t, r[1..])
    requires CellOf(s, q[0]).Hook? && CellOf(t, q[0]).Hook? && AllQuiet(runs)
    ensures var a, b := RunQueue(s, p, ev, q, woken, runs), RunQueue(t, p, ev, r, woken, AllErased(runs));
      Alike(a.state, b.state) && a.woken == b.woken
    decreases runs, |q| + |r|, 0
  {
    hide Alike, SameDue, AfterHook;
    var c := q[0];
    var body := if runs.Next? then runs.body else Done;
    var ends := if runs.Next? then runs.ends else Returns;
    var rest := if runs.Next? then runs.rest else NoMore;
    var s1, t1 := s.(log := s.log + [c]), t.(log := t.log + [c]);
    LogAlike(s, t, c);
    var s2, t2 := Perform(s1, body), Perform(t1, ScriptErased(body));
    if runs.Next? {
      PerformSame(s1, t1, body);
    } else {
      assert s2 == s1 && t2 == t1;
    }
    forall x: CellId ensures Aged(s, s2, x) {
      PerformAges(s1, body, x);
      assert Aged(s1, s2, x);
    }
    assert Aged(s, s2, c);
    AfterHookAlike(s2, t2, p, c, ends);
    var s3, t3 := AfterHook(s2, p, c, ends), AfterHook(t2, p, c, ends);
    forall x: CellId ensures Aged(s, s3, x) {
      assert Aged(s, s2, x);
      AfterHookAges(s, s2, p, c, ends, x);
    }
    SameCells(s, t);
    SameCells(s3, t3);
    DueLater(s, q[1..], t, r[1..], s3, t3);
    RunQueueSame(s3, t3, p, ev, q[1..], r[1..], woken, rest);
    assert RunQueue(s, p, ev, q, woken, runs) == RunQueue(s3, p, ev, q[1..], woken, rest);
    assert RunQueue(t, p, ev, r, woken, AllErased(runs)) == RunQueue(t3, p, ev, r[1..], woken, AllErased(rest));
  }

  lemma AfterHookAges(s: State, s': State, p: Place, c: CellId, ends: Ending, x: CellId)
    requires Aged(s, s', x)
    ensures Aged(s, AfterHook(s', p, c, ends), x)
  {
  }

  lemma {:induction false} PerformSame(s: State, t: State, script: Script)
    requires Alike(s, t) && ScriptQuiet(script)
    ensures Alike(Perform(s, script), Perform(t, ScriptErased(script)))
    decreases script, 0, 4
  {
    hide Alike;
    match script {
      case Done =>
      case Do(effect, next) =>
        ApplySame(s, t, effect);
        if effect == Collect {
          PerformSame(Apply(s, effect), t, next);
        } else {
          PerformSame(Apply(s, effect), Apply(t, Erased(effect)), next);
        }
    }
  }

  lemma ApplySame(s: State, t: State, effect: Effect)
    requires Alike(s, t) && Quiet(effect)
    ensures Alike(Apply(s, effect), if effect == Collect then t else Apply(t, Erased(effect)))
    decreases effect, 0, 3
  {
    ApplyTidy(s, effect);
    ErasedQuiet(effect);
    ApplyTidy(t, Erased(effect));
    match effect {
      case Spawn => FieldsSame(s, t, Apply(s, effect), Apply(t, effect));
      case AddHook(e, entries, once) => AddSame(s, t, Hook(once, AllPlaces([e], entries)), [e], entries);
      case KillHook(c) => EmptySame(s, t, c);
      case Collect => CollectedSame(s);
      case Emit(e, ev, star, named) => EmitSame(s, t, e, ev, star, named);
    }
  }

  lemma EmitSame(s: State, t: State, e: Emitter, ev: Event, star: Scripts, named: Scripts)
    requires Alike(s, t) && AllQuiet(star) && AllQuiet(named)
    ensures Same(Apply(s, Emit(e, ev, star, named)), Apply(t, Erased(Emit(e, ev, star, named))))
    decreases Emit(e, ev, star, named), 0, 2
  {
    hide Same, Tidy, Parse, Apply;
    var s1, t1 := s.(processing := true), t.(processing := true);
    SameCells(s, t);
    FieldsSame(s, t, s1, t1);
    LoggedTidy(s, s1);
    LoggedTidy(t, t1);
    ParseSame(s1, t1, Place(e, STAR), ev, [], star);
    var a, a' := Parse(s1, Place(e, STAR), ev, [], star), Parse(t1, Place(e, STAR), ev, [], AllErased(star));
    ParseSame(a.state, a'.state, Place(e, ev), ev, a.woken, named);
    var b, b' := Parse(a.state, Place(e, ev), ev, a.woken, named), Parse(a'.state, Place(e, ev), ev, a.woken, AllErased(named));
    SameCells(b.state, b'.state);
    FieldsSame(b.state, b'.state, b.state.(processing := s.processing, ready := b.state.ready + b.woken),
               b'.state.(processing := s.processing, ready := b'.state.ready + b'.woken));
    EmitPath(s, e, ev, star, named);
    EmitPath(t, e, ev, AllErased(star), AllErased(named));
  }

  /** The queues of p are as equal as before. */
  ghost predicate QueuesEqual(s: State, t: State) {
    t == s.(waiting := t.waiting) &&
    forall p {:trigger Queue(s.waiting, p)} {:trigger Queue(t.waiting, p)} :: Queue(s.waiting, p) == Queue(t.waiting, p)
  }

  /** parse_queue, row or no row. */
  lemma ParsePath(s: State, p: Place, ev: Event, woken: seq<Wake>, runs: Scripts)
    ensures var a := RunQueue(s.(waiting := Put(s.waiting, p, [])), p, ev, Queue(s.waiting, p), woken, runs);
      var b := Parse(s, p, ev, woken, runs);
      QueuesEqual(a.state, b.state) && a.woken == b.woken
  {
    var a := RunQueue(s.(waiting := Put(s.waiting, p, [])), p, ev, Queue(s.waiting, p), woken, runs);
    forall x: Place ensures Queue(Tidied(a.state.waiting, p), x) == Queue(a.state.waiting, x) {
      TidiedQueue(a.state.waiting, p, x);
    }
  }

  lemma ParseSame(s: State, t: State, p: Place, ev: Event, woken: seq<Wake>, runs: Scripts)
    requires Alike(s, t) && AllQuiet(runs)
    ensures var a, b := Parse(s, p, ev, woken, runs), Parse(t, p, ev, woken, AllErased(runs));
      Alike(a.state, b.state) && a.woken == b.woken
    decreases runs, |Queue(s.waiting, p)| + |Queue(t.waiting, p)|, 2
  {
    hide Alike, Same, Parse;
    var s1, t1 := s.(waiting := Put(s.waiting, p, [])), t.(waiting := Put(t.waiting, p, []));
    TakenOut(s, t, p);
    RunQueueSame(s1, t1, p, ev, Queue(s.waiting, p), Queue(t.waiting, p), woken, runs);
    ParsePath(s, p, ev, woken, runs);
    ParsePath(t, p, ev, woken, AllErased(runs));
    EqualAlike(RunQueue(s1, p, ev, Queue(s.waiting, p), woken, runs).state,
               RunQueue(t1, p, ev, Queue(t.waiting, p), woken, AllErased(runs)).state,
               Parse(s, p, ev, woken, runs).state, Parse(t, p, ev, woken, AllErased(runs)).state);
  }

  lemma TakenOut(s: State, t: State, p: Place)
    requires Alike(s, t)
    ensures Alike(s.(waiting := Put(s.waiting, p, [])), t.(waiting := Put(t.waiting, p, [])))
    ensures SameDue(s.(waiting := Put(s.waiting, p, [])), Queue(s.waiting, p),
                    t.(waiting := Put(t.waiting, p, [])), Queue(t.waiting, p))
  {
    var s', t' := s.(waiting := Put(s.waiting, p, [])), t.(waiting := Put(t.waiting, p, []));
    forall x: Place
      ensures Queue(s'.waiting, x) == if x == p then [] else Queue(s.waiting, x)
      ensures Queue(t'.waiting, x) == if x == p then [] else Queue(t.waiting, x)
      ensures LiveOf(s', Queue(s.waiting, x)) == LiveOf(t', Queue(t.waiting, x))
    {
      LiveSame(s, s', Queue(s.waiting, x));
      LiveSame(t, t', Queue(t.waiting, x));
    }
    StillNone(s, s');
    StillNone(t, t');
  }

  lemma EqualAlike(s: State, t: State, s': State, t': State)
    requires Alike(s, t) && QueuesEqual(s, s') && QueuesEqual(t, t')
    ensures Alike(s', t')
  {
    forall x: Place ensures LiveOf(s', Queue(s'.waiting, x)) == LiveOf(t', Queue(t'.waiting, x)) {
      LiveSame(s, s', Queue(s.waiting, x));
      LiveSame(t, t', Queue(t.waiting, x));
    }
    StillNone(s, s');
    StillNone(t, t');
  }

  /* ---- Runs ---- */

  /** The run without its collections, in actions and in hooks. */
  function RunErased(actions: seq<Action>): seq<Action> {
    if actions == [] then []
    else (if actions[0] == Act(Collect) then [] else [ActionErased(actions[0])]) + RunErased(actions[1..])
  }

  function ActionErased(a: Action): Action {
    match a
    case Act(effect) => Act(Erased(effect))
    case Die(star, named) => Die(AllErased(star), AllErased(named))
    case Expire(c, e, body) => Expire(c, e, ScriptErased(body))
    case _ => a
  }

  lemma StepSame(s: State, t: State, a: Action)
    requires Alike(s, t) && Sane(s) && Conserved(s) && Enabled(s, a) && InTime(a)
    ensures a != Act(Collect) ==> Enabled(t, ActionErased(a))
    ensures Same(Step(s, a), if a == Act(Collect) then t else Step(t, ActionErased(a)))
    ensures Tidy(Step(s, a)) && (a != Act(Collect) ==> Tidy(Step(t, ActionErased(a))))
  {
    match a {
      case Resume => Moved(s, t, Step(s, a), Step(t, a));
      case Act(effect) =>
        ApplySame(s, t, effect);
        ApplyTidy(s, effect);
      case Yield => Moved(s, t, Step(s, a), Step(t, a));
      case Wait(es, entries, multi) => WaitSame(s, t, es, entries, multi);
      case Die(star, named) => DieSame(s, t, star, named);
      case Expire(c, e, body) => ExpireSame(s, t, c, e, body);
    }
  }

  lemma Moved(s: State, t: State, s': State, t': State)
    requires Alike(s, t) && s' == s.(running := s'.running, ready := s'.ready, stuck := s'.stuck) && t' == s'.(waiting := t.waiting)
    ensures Alike(s', t')
  {
    FieldsSame(s, t, s', t');
    StillNone(s, s');
    StillNone(t, t');
  }

  lemma WaitSame(s: State, t: State, es: seq<Emitter>, entries: seq<Entry>, multi: bool)
    requires Alike(s, t) && Sane(s) && Conserved(s) && Enabled(s, Wait(es, entries, multi))
    requires !TwoDelays(es, entries)
    ensures Enabled(t, Wait(es, entries, multi))
    ensures Alike(Step(s, Wait(es, entries, multi)), Step(t, Wait(es, entries, multi)))
  {
    hide Same;
    SameCells(s, t);
    var cell := Waiter(s.running.value, multi, AllPlaces(es, entries));
    AddSame(s, t, cell, es, entries);
    AddTidy(s, cell, es, entries);
    AddTidy(t, cell, es, entries);
    var s1, t1 := Added(s, cell, es, entries), Added(t, cell, es, entries);
    SameCells(s1, t1);
    Moved(s1, t1, s1.(running := None), t1.(running := None));
  }

  lemma AddTidy(s: State, cell: Cell, es: seq<Emitter>, entries: seq<Entry>)
    requires Tidy(s) && cell.Waiter? && cell.task !in s.dead
    ensures Tidy(Added(s, cell, es, entries))
  {
    var s' := Added(s, cell, es, entries);
    forall c: CellId ensures Full(s', c) ==> !Collectable(s', c) {
      assert Full(s, c) ==> !Collectable(s, c);
    }
    forall c: CellId, p: Place | c in Queue(s'.waiting, p) ensures c < |s'.cells| {
      InRegisteredAll(s.waiting, es, entries, |s.cells|, c, p);
    }
  }

  lemma DieSame(s: State, t: State, star: Scripts, named: Scripts)
    requires Alike(s, t) && Conserved(s) && Enabled(s, Die(star, named)) && AllQuiet(star) && AllQuiet(named)
    ensures Enabled(t, Die(AllErased(star), AllErased(named)))
    ensures Alike(Step(s, Die(star, named)), Step(t, Die(AllErased(star), AllErased(named))))
  {
    hide Alike, Apply;
    SameCells(s, t);
    var r := s.running.value;
    var s1, t1 := s.(dead := s.dead + {r}), t.(dead := t.dead + {r});
    DeadAlike(s, t, r);
    ApplySame(s1, t1, Emit(Thread(r), DIE, star, named));
    var s2, t2 := Apply(s1, Emit(Thread(r), DIE, star, named)), Apply(t1, Emit(Thread(r), DIE, AllErased(star), AllErased(named)));
    SameCells(s2, t2);
    Moved(s2, t2, s2.(running := None), t2.(running := None));
  }

  lemma DeadAlike(s: State, t: State, r: Task)
    requires Alike(s, t) && Conserved(s) && s.running == Some(r)
    ensures Alike(s.(dead := s.dead + {r}), t.(dead := t.dead + {r}))
  {
    SameCells(s, t);
    var s1, t1 := s.(dead := s.dead + {r}), t.(dead := t.dead + {r});
    FieldsSame(s, t, s1, t1);
    assert Excess(s, r) == 0;
    forall c: CellId
      ensures Full(s1, c) ==> !Collectable(s1, c)
      ensures Full(t1, c) ==> !Collectable(t1, c)
    {
      assert Full(s, c) ==> !Collectable(s, c);
      if CellOf(s, c).Waiter? {
        CellCounts(s.cells, c);
      }
    }
  }

  lemma ExpireSame(s: State, t: State, c: CellId, e: Emitter, body: Script)
    requires Alike(s, t) && ScriptQuiet(body)
    ensures Alike(Expired(s, c, e, body), Expired(t, c, e, ScriptErased(body)))
  {
    hide Same, Tidy, Emptied, Perform;
    SameCells(s, t);
    match CellOf(s, c) {
      case Empty =>
      case Waiter(_, _, _) =>
        EmptyAlike(s, t, c);
        var s1, t1 := Emptied(s, c), Emptied(t, c);
        SameCells(s1, t1);
        EmptiedFields(s, c);
        EmptiedFields(t, c);
        var more := [WakeFor(CellOf(s, c), e, TIMEOUT)];
        FieldsSame(s1, t1, s1.(ready := s1.ready + more), t1.(ready := t1.ready + more));
        LoggedTidy(s1, s1.(ready := s1.ready + more));
        LoggedTidy(t1, t1.(ready := t1.ready + more));
      case Hook(_, _) =>
        LogAlike(s, t, c);
        var s1, t1 := s.(log := s.log + [c]), t.(log := t.log + [c]);
        PerformSame(s1, t1, body);
        EmptyAlike(Perform(s1, body), Perform(t1, ScriptErased(body)), c);
    }
  }

  lemma EmptiedFields(s: State, c: CellId)
    ensures Emptied(s, c) == s.(cells := Emptied(s, c).cells)
  {
  }

  /** Leaving out every collection, wherever it comes, also inside a signal, gives a run that can be made too and ends
      with the same tasks ready, the same cells and the same hooks run in the same order. */
  lemma {:induction false} GcUnobservable(s: State, t: State, actions: seq<Action>)
    requires Alike(s, t) && Sane(s) && Conserved(s) && CanRun(s, actions) && AllInTime(actions)
    ensures CanRun(t, RunErased(actions))
    ensures Same(Reached(s, actions), Reached(t, RunErased(actions)))
    decreases |actions|
  {
    hide Same, Tidy, Conserved;
    if actions != [] {
      var a, rest := actions[0], actions[1..];
      assert InTime(a);
      StepSame(s, t, a);
      StepConservesIff(s, a);
      if a == Act(Collect) {
        GcUnobservable(Step(s, a), t, rest);
        assert RunErased(actions) == RunErased(rest);
      } else {
        var b := ActionErased(a);
        GcUnobservable(Step(s, a), Step(t, b), rest);
        assert RunErased(actions) == [b] + RunErased(rest);
        assert RunErased(actions)[1..] == RunErased(rest);
      }
    }
  }

  lemma AlikeAtFirst()
    ensures Alike(INITIAL, INITIAL)
  {
  }
}
