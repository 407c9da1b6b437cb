/** In which order tasks are resumed: the ready list is a queue. */
module SchedOrder {
  import opened Bytes
  import opened SchedModel
  import opened SchedConservation
  import opened SchedQueues

  /* ---- Everything but resuming only adds to the end of the ready list ---- */

  lemma {:induction false} RunQueueExtends(s: State, p: Place, ev: Event, q: seq<CellId>, woken: seq<Wake>, runs: Scripts)
    ensures s.ready <= RunQueue(s, p, ev, q, woken, runs).state.ready
    decreases runs, |q|, 0
  {
    if q != [] {
      match CellOf(s, q[0]) {
        case Empty => RunQueueExtends(s, p, ev, q[1..], woken, runs);
        case Waiter(_, _, _) =>
          RunQueueExtends(Emptied(s, q[0]), p, ev, q[1..], woken + [WakeFor(CellOf(s, q[0]), p.emitter, ev)], runs);
        case Hook(_, _) =>
          var s1 := s.(log := s.log + [q[0]]);
          match runs {
            case NoMore => RunQueueExtends(AfterHook(s1, p, q[0], Returns), p, ev, q[1..], woken, NoMore);
            case Next(body, ends, rest) =>
              PerformExtends(s1, body);
              RunQueueExtends(AfterHook(Perform(s1, body), p, q[0], ends), p, ev, q[1..], woken, rest);
          }
      }
    }
  }

  lemma ParseExtends(s: State, p: Place, ev: Event, woken: seq<Wake>, runs: Scripts)
    ensures s.ready <= Parse(s, p, ev, woken, runs).state.ready
    decreases runs, |Queue(s.waiting, p)|, 1
  {
    if p.event in RowsOf(s.waiting, p.emitter) {
      RunQueueExtends(s.(waiting := Put(s.waiting, p, [])), p, ev, Queue(s.waiting, p), woken, runs);
    }
  }

  lemma ApplyExtends(s: State, effect: Effect)
    ensures s.ready <= Apply(s, effect).ready
    decreases effect, 0, 3
  {
    if effect.Emit? && effect.emitter in s.waiting {
      var s1 := s.(processing := true);
      ParseExtends(s1, Place(effect.emitter, STAR), effect.event, [], effect.star);
      var a := Parse(s1, Place(effect.emitter, STAR), effect.event, [], effect.star);
      ParseExtends(a.state, Place(effect.emitter, effect.event), effect.event, a.woken, effect.named);
    }
  }

  lemma {:induction false} PerformExtends(s: State, script: Script)
    ensures s.ready <= Perform(s, script).ready
    decreases script, 0, 4
  {
    if script.Do? {
      ApplyExtends(s, script.effect);
      PerformExtends(Apply(s, script.effect), script.next);
    }
  }

  lemma StepExtends(s: State, a: Action)
    requires Enabled(s, a)
    ensures a.Resume? ==> s.ready != [] && Step(s, a).running == Some(s.ready[0].task) && Step(s, a).ready == s.ready[1..]
    ensures !a.Resume? ==> s.ready <= Step(s, a).ready
  {
    match a {
      case Resume =>
      case Act(effect) => ApplyExtends(s, effect);
      case Yield =>
      case Wait(_, _, _) =>
      case Die(star, named) =>
        ApplyExtends(s.(dead := s.dead + {s.running.value}), Emit(Thread(s.running.value), DIE, star, named));
      case Expire(c, _, body) => PerformExtends(s.(log := s.log + [c]), body);
    }
  }

  /* ---- First in, first out ---- */

  /** What an action adds. */
  function AddedBy(s: State, a: Action): seq<Wake>
    requires Enabled(s, a)
  {
    if a.Resume? || |Step(s, a).ready| < |s.ready| then [] else Step(s, a).ready[|s.ready|..]
  }

  /** All that a run adds to the ready list, and all that it resumes, in order. */
  function AddedIn(s: State, actions: seq<Action>): seq<Wake>
    requires CanRun(s, actions)
    decreases |actions|
  {
    if actions == [] then [] else AddedBy(s, actions[0]) + AddedIn(Step(s, actions[0]), actions[1..])
  }

  function ResumedIn(s: State, actions: seq<Action>): seq<Wake>
    requires CanRun(s, actions)
    decreases |actions|
  {
    if actions == [] then []
    else (if actions[0].Resume? then [s.ready[0]] else []) + ResumedIn(Step(s, actions[0]), actions[1..])
  }

  /** Over any run: what was ready, and then what got ready, is resumed in this order; the rest is still ready. */
  lemma {:induction false} FirstInFirstOut(s: State, actions: seq<Action>)
    requires CanRun(s, actions)
    ensures s.ready + AddedIn(s, actions) == ResumedIn(s, actions) + Reached(s, actions).ready
    decreases |actions|
  {
    hide Step, Enabled;
    if actions == [] {
      assert s.ready + [] == [] + s.ready;
    } else {
      var a, s', rest := actions[0], Step(s, actions[0]), actions[1..];
      StepExtends(s, a);
      FirstInFirstOut(s', rest);
      var now := if a.Resume? then [s.ready[0]] else [];
      assert s.ready + AddedBy(s, a) == now + s'.ready;
      Assoc(s.ready, AddedBy(s, a), AddedIn(s', rest));
      Assoc(now, s'.ready, AddedIn(s', rest));
      Assoc(now, ResumedIn(s', rest), Reached(s', rest).ready);
    }
  }

  /** So everything ready now is resumed next, in order, before anything that gets ready later. */
  lemma ReadyFirst(s: State, actions: seq<Action>)
    requires CanRun(s, actions)
    ensures var r := ResumedIn(s, actions); if |r| <= |s.ready| then r <= s.ready else s.ready <= r
  {
    FirstInFirstOut(s, actions);
    var r, all := ResumedIn(s, actions), s.ready + AddedIn(s, actions);
    assert forall i :: 0 <= i < |r| ==> all[i] == r[i];
    assert forall i :: 0 <= i < |s.ready| ==> all[i] == s.ready[i];
  }

  /** A task that calls wait() is resumed right after all those that were ready then. */
  lemma YieldsToAll(s: State, actions: seq<Action>)
    requires Enabled(s, Yield) && CanRun(Step(s, Yield), actions)
    ensures var r := ResumedIn(Step(s, Yield), actions);
      |r| > |s.ready| ==> r[..|s.ready|] == s.ready && r[|s.ready|] == Again(s.running.value)
  {
    ReadyFirst(Step(s, Yield), actions);
    var r, ready := ResumedIn(Step(s, Yield), actions), s.ready + [Again(s.running.value)];
    assert Step(s, Yield).ready == ready;
    if |r| > |s.ready| {
      assert forall i :: 0 <= i < |ready| ==> r[i] == ready[i];
    }
  }

  /* ---- What each kind of action adds ---- */

  /** Nothing but signals, elapsed delays, new tasks and wait() make a task ready. */
  lemma Adds(s: State, a: Action)
    requires Enabled(s, a)
    ensures a == Act(Spawn) ==> AddedBy(s, a) == [Starts(s.tasks)]
    ensures a == Yield ==> AddedBy(s, a) == [Again(s.running.value)]
    ensures a == Act(LateYield) && s.running.Some? && !s.stuck ==> AddedBy(s, a) == [Again(s.running.value)]
    ensures a.Expire? && CellOf(s, a.cell).Waiter? ==>
      AddedBy(s, a) == [Woken(CellOf(s, a.cell).task, if CellOf(s, a.cell).multi then Some(a.emitter) else None, "timeout")]
    ensures a.Wait? || a.Resume? ==> AddedBy(s, a) == []
    ensures a.Act? && !a.effect.Spawn? && !a.effect.LateYield? && !a.effect.Emit? ==> AddedBy(s, a) == []
  {
  }

  /* ---- Where and in which order cells wait ---- */

  /** The events of a list, in order; a delay is not one. */
  predicate Names(entries: seq<Entry>, ev: Event) {
    Named(ev) in entries
  }

  predicate HasDelay(entries: seq<Entry>) {
    exists i :: 0 <= i < |entries| && entries[i].After?
  }

  lemma {:induction false} NamedAre(e: Emitter, entries: seq<Entry>, p: Place)
    ensures p in NamedPlaces(e, entries) <==> p.emitter == e && Names(entries, p.event)
  {
    if entries != [] {
      NamedAre(e, entries[1..], p);
      assert Names(entries, p.event) <==> entries[0] == Named(p.event) || Names(entries[1..], p.event);
    }
  }

  lemma {:induction false} DelaysAre(entries: seq<Entry>)
    ensures Delays(entries) > 0 <==> HasDelay(entries)
  {
    if entries != [] {
      DelaysAre(entries[1..]);
      if HasDelay(entries[1..]) {
        var i :| 0 <= i < |entries[1..]| && entries[1..][i].After?;
        assert entries[i + 1].After?;
      }
      if HasDelay(entries) && !entries[0].After? {
        var i :| 0 <= i < |entries| && entries[i].After?;
        assert entries[1..][i - 1].After?;
      }
    }
  }

  /** A cell is registered at each event named of each emitter, and at "timeout" of each if there is a delay. */
  lemma {:induction false} PlacesAre(es: seq<Emitter>, entries: seq<Entry>, p: Place)
    requires Delays(entries) <= 1
    ensures p in AllPlaces(es, entries) <==>
            p.emitter in es && (Names(entries, p.event) || (p.event == "timeout" && HasDelay(entries)))
  {
    if es != [] {
      PlacesAre(es[1..], entries, p);
      NamedAre(es[0], entries, p);
      DelaysAre(entries);
      assert p.emitter in es <==> p.emitter == es[0] || p.emitter in es[1..];
    }
  }

  /** How often c is put into the queue of p, behind what is there. */
  function Repeats(places: seq<Place>, p: Place, c: CellId): seq<CellId> {
    if places == [] then [] else (if places[0] == p then [c] else []) + Repeats(places[1..], p, c)
  }

  lemma {:induction false} RepeatsAppend(a: seq<Place>, b: seq<Place>, p: Place, c: CellId)
    ensures Repeats(a + b, p, c) == Repeats(a, p, c) + Repeats(b, p, c)
  {
    if a == [] {
      assert a + b == b;
    } else {
      assert (a + b)[1..] == a[1..] + b;
      RepeatsAppend(a[1..], b, p, c);
    }
  }

  lemma {:induction false} AppendedAllQueue(w: Table, places: seq<Place>, c: CellId, p: Place)
    ensures Queue(AppendedAll(w, places, c), p) == Queue(w, p) + Repeats(places, p, c)
    decreases places
  {
    if places != [] {
      AppendedAllQueue(Appended(w, places[0], c), places[1..], c, p);
    }
  }

  /** Cells queue up: a new one is behind all that are there. */
  lemma {:induction false} RegisteredAllQueue(w: Table, es: seq<Emitter>, entries: seq<Entry>, c: CellId, p: Place)
    ensures Queue(RegisteredAll(w, es, entries, c), p) == Queue(w, p) + Repeats(AllPlaces(es, entries), p, c)
    decreases es
  {
    if es != [] {
      AppendedAllQueue(Opened(w, es[0]), Places(es[0], entries), c, p);
      if Delays(entries) <= 1 {
        RegisteredAllQueue(Registered(w, es[0], entries, c), es[1..], entries, c, p);
        RepeatsAppend(Places(es[0], entries), AllPlaces(es[1..], entries), p, c);
      } else {
        assert AllPlaces(es, entries) == Places(es[0], entries);
      }
    }
  }

  /* ---- Events by name ---- */

  /** A task that waits for any event of an emitter waits for "*". */
  lemma WildcardWakes(s: State, e: Emitter, ev: Event, c: CellId)
    requires Sane(s) && AllLocated(s) && Conserved(s) && IsWaiter(s, c) && RegisteredAt(s, c, Place(e, "*"))
    ensures InReady(Apply(s, Emit(e, ev, NoMore, NoMore)).ready, CellOf(s, c).task) == 1
  {
    SignalWakes(s, e, ev, NoMore, NoMore, c);
  }

  /** A task that waits for the end of another one, that is, for "die" of its thread, gets ready when that ends. */
  lemma DeathWakes(s: State, star: Scripts, named: Scripts, c: CellId)
    requires Sane(s) && AllLocated(s) && Conserved(s) && s.running.Some? && IsWaiter(s, c)
    requires RegisteredAt(s, c, Place(Thread(s.running.value), "die")) && AllQuiet(star) && AllQuiet(named)
    ensures InReady(Step(s, Die(star, named)).ready, CellOf(s, c).task) == 1
    ensures s.running.value in Step(s, Die(star, named)).dead && Step(s, Die(star, named)).running == None
  {
    hide AllQuiet;
    var r, a := s.running.value, Die(star, named);
    var s1, emit := s.(dead := s.dead + {r}), Emit(Thread(r), "die", star, named);
    var t := CellOf(s, c).task;
    assert Excess(s, r) == 0 && Excess(s, t) == 0;
    CellCounts(s.cells, c);
    StepConservesIff(s, a);
    assert Excess(Step(s, a), t) == 0;
    ApplyAges(s1, emit, 0);
    forall p ensures Located(s1, c, p, false) {
      assert Located(s, c, p, false);
    }
    SignalReaches(s1, emit, c);
    forall x: CellId ensures AgedQuietly(s1, Apply(s1, emit), x) {
      ApplyAges(s1, emit, x);
    }
    OutOfCells(s, s1, Apply(s1, emit), c);
  }

  /** The signal empties the cell, whatever is known of the rest of the state. */
  lemma SignalReaches(s: State, emit: Effect, c: CellId)
    requires emit.Emit? && IsWaiter(s, c) && !Collectable(s, c) && Quiet(emit)
    requires RegisteredAt(s, c, Place(emit.emitter, emit.event))
    requires forall p {:trigger Located(s, c, p, false)} :: Located(s, c, p, false)
    ensures !Full(Apply(s, emit), c)
  {
    var p1, p2 := Place(emit.emitter, STAR), Place(emit.emitter, emit.event);
    assert Located(s, c, p1, false) && Located(s, c, p2, false);
    var s1 := s.(processing := true);
    assert Located(s1, c, p1, false) && Located(s1, c, p2, false);
    ParseWakes(s1, p1, emit.event, [], emit.star, c);
    ParseAges(s1, p1, emit.event, [], emit.star, c);
    var a := Parse(s1, p1, emit.event, [], emit.star);
    ParseLocated(s1, p1, emit.event, [], emit.star, c, p2, false);
    ParseWakes(a.state, p2, emit.event, a.woken, emit.named, c);
    ParseAges(a.state, p2, emit.event, a.woken, emit.named, c);
    EmitPath(s, emit.emitter, emit.event, emit.star, emit.named);
  }

  lemma OutOfCells(s: State, s1: State, s2: State, c: CellId)
    requires Conserved(s) && IsWaiter(s, c) && !Full(s2, c) && s1.cells == s.cells
    requires forall x {:trigger AgedQuietly(s1, s2, x)} :: AgedQuietly(s1, s2, x)
    ensures InCells(s2.cells, CellOf(s, c).task) == 0
  {
    var t := CellOf(s, c).task;
    assert Excess(s, t) == 0;
    CellCounts(s.cells, c);
    forall x | 0 <= x < |s2.cells| ensures !Holds(s2.cells[x], t) {
      assert AgedQuietly(s1, s2, x);
      if x != c && x < |s.cells| && Holds(s.cells[x], t) {
        OnlyCell(s.cells, c, x, t);
      }
    }
    NoCell(s2.cells, t);
  }

  /* ---- Hooks keep their order ---- */

  /** The hooks of a queue that stay, in order. */
  function Persistent(s: State, q: seq<CellId>): seq<CellId> {
    if q == [] then []
    else (if CellOf(s, q[0]).Hook? && !CellOf(s, q[0]).once then [q[0]] else []) + Persistent(s, q[1..])
  }

  /** Cells are kept or emptied, and hooks that stay are kept. */
  ghost predicate Spends(s: State, t: State) {
    forall c {:trigger CellOf(t, c)} ::
      CellOf(t, c) == CellOf(s, c) || (CellOf(t, c) == Empty && (CellOf(s, c).Hook? ==> CellOf(s, c).once))
  }

  lemma SpendsTwice(s: State, t: State, u: State)
    requires Spends(s, t) && Spends(t, u)
    ensures Spends(s, u)
  {
    forall c: CellId
      ensures CellOf(u, c) == CellOf(s, c) || (CellOf(u, c) == Empty && (CellOf(s, c).Hook? ==> CellOf(s, c).once))
    {
      assert CellOf(t, c) == CellOf(s, c) || CellOf(t, c) == Empty;
    }
  }

  lemma {:induction false} SamePersistent(s: State, t: State, q: seq<CellId>)
    requires Spends(s, t)
    ensures Persistent(t, q) == Persistent(s, q)
  {
    if q != [] {
      assert CellOf(t, q[0]) == CellOf(s, q[0]) || CellOf(t, q[0]) == Empty;
      SamePersistent(s, t, q[1..]);
    }
  }

  /** Back to p go these cells; the queue of no other place changes. */
  ghost predicate PutBack(s: State, t: State, p: Place, back: seq<CellId>) {
    && Spends(s, t)
    && Queue(t.waiting, p) == Queue(s.waiting, p) + back
    && forall x {:trigger Queue(t.waiting, x)} :: x != p ==> Queue(t.waiting, x) == Queue(s.waiting, x)
  }

  lemma PutBackTwice(s: State, t: State, u: State, p: Place, a: seq<CellId>, b: seq<CellId>)
    requires PutBack(s, t, p, a) && PutBack(t, u, p, b)
    ensures PutBack(s, u, p, a + b)
  {
    SpendsTwice(s, t, u);
    Assoc(Queue(s.waiting, p), a, b);
    forall x | x != p ensures Queue(u.waiting, x) == Queue(s.waiting, x) {
      assert Queue(t.waiting, x) == Queue(s.waiting, x);
    }
  }

  lemma {:induction false} PassKeepsHooks(s: State, p: Place, ev: Event, q: seq<CellId>, woken: seq<Wake>)
    ensures PutBack(s, RunQueue(s, p, ev, q, woken, NoMore).state, p, Persistent(s, q))
    decreases q
  {
    hide PutBack, Spends, AfterHook, Emptied;
    if q == [] {
      Unchanged(s, p);
    } else {
      var c, rest := q[0], q[1..];
      var t := OneCell(s, p, c);
      var more := if CellOf(s, c).Waiter? then [WakeFor(CellOf(s, c), p.emitter, ev)] else [];
      assert woken + [] == woken;
      PassKeepsHooks(t, p, ev, rest, woken + more);
      SamePersistent(s, t, rest);
      PutBackTwice(s, t, RunQueue(t, p, ev, rest, woken + more, NoMore).state, p,
                   if CellOf(s, c).Hook? && !CellOf(s, c).once then [c] else [], Persistent(s, rest));
    }
  }

  lemma Unchanged(s: State, p: Place)
    ensures PutBack(s, s, p, [])
  {
  }

  /** One cell of the queue. */
  lemma OneCell(s: State, p: Place, c: CellId) returns (t: State)
    ensures t == match CellOf(s, c)
                 case Empty => s
                 case Waiter(_, _, _) => Emptied(s, c)
                 case Hook(_, _) => AfterHook(s.(log := s.log + [c]), p, c, Returns)
    ensures Spends(s, t) && PutBack(s, t, p, if CellOf(s, c).Hook? && !CellOf(s, c).once then [c] else [])
  {
    match CellOf(s, c) {
      case Empty => t := s;
      case Waiter(_, _, _) => t := Emptied(s, c);
      case Hook(_, _) => t := AfterHook(s.(log := s.log + [c]), p, c, Returns);
    }
  }

  /** After a signal its hooks are back in their queues, in the order they had, those with once excepted. */
  lemma SignalKeepsHooks(s: State, e: Emitter, ev: Event)
    requires ev != STAR
    ensures var w := Apply(s, Emit(e, ev, NoMore, NoMore)).waiting;
      && Queue(w, Place(e, STAR)) == Persistent(s, Queue(s.waiting, Place(e, STAR)))
      && Queue(w, Place(e, ev)) == Persistent(s, Queue(s.waiting, Place(e, ev)))
  {
    hide RunQueue, Spends;
    var s1, p1, p2 := s.(processing := true), Place(e, STAR), Place(e, ev);
    EmitPath(s, e, ev, NoMore, NoMore);
    SameCells(s, s1);
    ParseKeepsHooks(s1, p1, ev, [], p2);
    var a := Parse(s1, p1, ev, [], NoMore);
    ParseKeepsHooks(a.state, p2, ev, a.woken, p1);
    SpendsTwice(s, s1, a.state);
    SamePersistent(s, a.state, Queue(s.waiting, p2));
    SamePersistent(s, s1, Queue(s.waiting, p1));
  }

  lemma SameCells(s: State, t: State)
    requires t.cells == s.cells
    ensures Spends(s, t)
  {
  }

  lemma ParseKeepsHooks(s: State, p: Place, ev: Event, woken: seq<Wake>, other: Place)
    requires other != p
    ensures var t := Parse(s, p, ev, woken, NoMore).state;
      && Queue(t.waiting, p) == Persistent(s, Queue(s.waiting, p))
      && Queue(t.waiting, other) == Queue(s.waiting, other)
      && Spends(s, t)
  {
    hide RunQueue, Spends;
    SameCells(s, s);
    if p.event in RowsOf(s.waiting, p.emitter) {
      var q, s1 := Queue(s.waiting, p), s.(waiting := Put(s.waiting, p, []));
      PassKeepsHooks(s1, p, ev, q, woken);
      SameCells(s, s1);
      SamePersistent(s, s1, q);
      var a := RunQueue(s1, p, ev, q, woken, NoMore).state;
      TidiedQueue(a.waiting, p, p);
      TidiedQueue(a.waiting, p, other);
      assert Queue(s1.waiting, other) == Queue(s.waiting, other);
      var t := a.(waiting := Tidied(a.waiting, p));
      SameCells(a, t);
      SpendsTwice(s, s1, a);
      SpendsTwice(s, a, t);
    }
  }

  /* ---- Rows ---- */

  /** Two delays in one list are an error. */
  lemma {:induction false} DelaysCount(entries: seq<Entry>)
    ensures Delays(entries) >= 2 <==> exists i, j :: 0 <= i < j < |entries| && entries[i].After? && entries[j].After?
    decreases entries
  {
    if entries != [] {
      var rest := entries[1..];
      DelaysCount(rest);
      DelaysAre(rest);
      if Delays(rest) >= 2 {
        var i, j :| 0 <= i < j < |rest| && rest[i].After? && rest[j].After?;
        assert entries[i + 1].After? && entries[j + 1].After?;
      } else if entries[0].After? && HasDelay(rest) {
        var j :| 0 <= j < |rest| && rest[j].After?;
        assert entries[0].After? && entries[j + 1].After?;
      }
      if exists i, j :: 0 <= i < j < |entries| && entries[i].After? && entries[j].After? {
        var i, j :| 0 <= i < j < |entries| && entries[i].After? && entries[j].After?;
        assert rest[j - 1].After?;
        assert i > 0 ==> rest[i - 1].After?;
      }
    }
  }

  /** A collection leaves no empty rows and no emitters without rows, unless a signal is being processed: then all rows
      stay, as the signal still goes through them. */
  lemma RowsAfterGc(s: State)
    ensures var w := Collected(s).waiting;
      if s.processing then
        && w.Keys == s.waiting.Keys && forall e {:trigger w[e]} :: e in w ==> w[e].Keys == s.waiting[e].Keys
      else forall e {:trigger w[e]} :: e in w ==> w[e] != map[] && forall ev :: ev in w[e] ==> w[e][ev] != []
  {
  }

  /** A pass over a queue leaves its row only if something is in it, and the emitter only if it has a row. */
  lemma RowsAfterPass(w: Table, p: Place)
    requires p.emitter in w && p.event in w[p.emitter]
    ensures var w' := Tidied(w, p);
      && (p.event in RowsOf(w', p.emitter) <==> w[p.emitter][p.event] != [])
      && (p.emitter in w' <==> RowsOf(w', p.emitter) != map[])
      && (forall e {:trigger RowsOf(w', e)} :: e != p.emitter ==> RowsOf(w', e) == RowsOf(w, e))
  {
  }

  /* ---- Waits ---- */

  ghost predicate SeveralDelays(entries: seq<Entry>) {
    exists i, j :: 0 <= i < j < |entries| && entries[i].After? && entries[j].After?
  }

  /** A wait registers a new cell for the running task and gives the processor back; with several delays it fails, and
      the task stays on the processor. */
  lemma WaitIs(s: State, es: seq<Emitter>, entries: seq<Entry>, multi: bool)
    requires Enabled(s, Wait(es, entries, multi))
    ensures var s' := Step(s, Wait(es, entries, multi));
      && s'.cells == s.cells + [Waiter(s.running.value, multi, AllPlaces(es, entries))] && s'.ready == s.ready
      && s'.running == if es != [] && SeveralDelays(entries) then s.running else None
  {
    DelaysCount(entries);
  }

  /** Where the task cannot switch it stays on the processor in any case, and __tasks.running is nil, unless it was the
      delays that made the wait fail. From then on waits fail at once, until the next task is resumed. */
  lemma LateIs(s: State, es: seq<Emitter>, entries: seq<Entry>, multi: bool, again: Effect)
    requires s.running.Some? && !s.stuck && (again.LateWait? || again.LateYield?)
    ensures var s' := Apply(s, LateWait(es, entries, multi));
      && s'.cells == s.cells + [Waiter(s.running.value, multi, AllPlaces(es, entries))] && s'.ready == s.ready
      && s'.running == s.running && s'.stuck == !(es != [] && SeveralDelays(entries))
      && (s'.stuck ==> Apply(s', again) == s' && !Enabled(s', Yield))
    ensures var s' := Apply(s, LateYield);
      && s'.ready == s.ready + [Again(s.running.value)] && s'.running == s.running && s'.stuck
      && Apply(s', again) == s' && !Enabled(s', Yield)
  {
    DelaysCount(entries);
  }

  lemma ResumedFree(s: State)
    requires Enabled(s, Resume)
    ensures !Step(s, Resume).stuck && Step(s, Resume).running == Some(s.ready[0].task)
  {
  }

  /** Late waits without a running task do nothing. */
  lemma NobodyWaits(s: State, es: seq<Emitter>, entries: seq<Entry>, multi: bool)
    requires s.running == None
    ensures Apply(s, LateWait(es, entries, multi)) == s && Apply(s, LateYield) == s
  {
  }
}
