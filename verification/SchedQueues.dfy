/** Every registered cell stays in its queues until it is emptied: no wake-up is lost and none is made up. */
module SchedQueues {
  import opened Bytes
  import opened SchedModel
  import opened SchedConservation

  /** A signal is a pass over the queue of "*" and one over the queue of the event, rows or no rows. */
  lemma EmitPath(s: State, e: Emitter, ev: Event, star: Scripts, named: Scripts)
    ensures var a := Parse(s.(processing := true), Place(e, STAR), ev, [], star);
      var b := Parse(a.state, Place(e, ev), ev, a.woken, named);
      Apply(s, Emit(e, ev, star, named)) == b.state.(processing := s.processing, ready := b.state.ready + b.woken)
  {
    hide RunQueue;
    if e !in s.waiting {
      assert s.ready + [] == s.ready;
    }
  }

  predicate Full(s: State, c: CellId) { CellOf(s, c) != Empty }

  predicate RegisteredAt(s: State, c: CellId, p: Place) {
    Full(s, c) && p in CellOf(s, c).at
  }

  /** Cell c, if not emptied, is in the queue of p exactly when it was registered there; out: it is in a queue
      taken out of p for the time being. */
  predicate Located(s: State, c: CellId, p: Place, out: bool) {
    && (c in Queue(s.waiting, p) || out ==> c < |s.cells|)
    && (Full(s, c) ==> ((c in Queue(s.waiting, p) || out) <==> RegisteredAt(s, c, p)))
  }

  lemma {:induction false} InAppendedAll(w: Table, places: seq<Place>, c: CellId, x: CellId, p: Place)
    ensures x in Queue(AppendedAll(w, places, c), p) <==> x in Queue(w, p) || (x == c && p in places)
    decreases places
  {
    if places != [] {
      InAppendedAll(Appended(w, places[0], c), places[1..], c, x, p);
    }
  }

  lemma {:induction false} InRegisteredAll(w: Table, es: seq<Emitter>, entries: seq<Entry>, c: CellId, x: CellId, p: Place)
    ensures x in Queue(RegisteredAll(w, es, entries, c), p) <==> x in Queue(w, p) || (x == c && p in AllPlaces(es, entries))
    decreases es
  {
    if es != [] {
      InAppendedAll(Opened(w, es[0]), Places(es[0], entries), c, x, p);
      if Delays(entries) <= 1 {
        InRegisteredAll(Registered(w, es[0], entries, c), es[1..], entries, c, x, p);
      }
    }
  }

  lemma {:induction false} InKept(s: State, q: seq<CellId>, x: CellId)
    ensures x in Kept(s, q) <==> x in q && !Collectable(s, x)
  {
    if q != [] {
      InKept(s, q[1..], x);
    }
  }

  lemma InCollected(s: State, x: CellId, p: Place)
    ensures x in Queue(Collected(s).waiting, p) <==> x in Queue(s.waiting, p) && !Collectable(s, x)
  {
    CollectedQueue(s, p);
    InKept(s, Queue(s.waiting, p), x);
  }

  lemma CollectedQueue(s: State, p: Place)
    ensures Queue(Collected(s).waiting, p) == Kept(s, Queue(s.waiting, p))
  {
    if p.emitter in s.waiting && p.event in s.waiting[p.emitter] {
      var rows := s.waiting[p.emitter];
      if Kept(s, rows[p.event]) != [] {
        assert p.event in KeptRows(s, rows);
      }
    }
  }

  lemma AddingLocated(s: State, cell: Cell, es: seq<Emitter>, entries: seq<Entry>, c: CellId, p: Place,
                      out: bool)
    requires Located(s, c, p, out) && cell != Empty && cell.at == AllPlaces(es, entries)
    ensures Located(Added(s, cell, es, entries), c, p, out)
  {
    InRegisteredAll(s.waiting, es, entries, |s.cells|, c, p);
  }

  /** q[0] has been dealt with: c is in what is left of q, or was q[0]. */
  lemma NextInQueue(q: seq<CellId>, c: CellId)
    requires q != []
    ensures c in q <==> c == q[0] || c in q[1..]
  {
  }

  lemma EmptyingLocated(s: State, x: CellId, c: CellId, at: Place, out: bool, here: bool)
    requires (here ==> x == c) && Located(s, c, at, out || here)
    ensures Located(Emptied(s, x), c, at, out) && |Emptied(s, x).cells| == |s.cells|
    ensures (Full(s, c) ==> !Collectable(s, c)) ==> (Full(Emptied(s, x), c) ==> !Collectable(Emptied(s, x), c))
  {
  }

  lemma AfterHookLocated(s: State, p: Place, x: CellId, ends: Ending, c: CellId, at: Place, out: bool)
    requires Located(s, c, at, out || (at == p && x == c)) && x < |s.cells|
    ensures Located(AfterHook(s, p, x, ends), c, at, out)
  {
  }

  lemma {:induction false} RunQueueLocated(s: State, p: Place, ev: Event, q: seq<CellId>, woken: seq<Wake>, runs: Scripts,
                                           c: CellId, at: Place, out: bool)
    requires Located(s, c, at, out || (at == p && c in q))
    requires Full(s, c) ==> !Collectable(s, c)
    requires c < |s.cells| || AllQuiet(runs)
    ensures Located(RunQueue(s, p, ev, q, woken, runs).state, c, at, out)
    decreases runs, |q|, 0
  {
    hide Located, AfterHook, Emptied;
    if q != [] {
      var x := q[0];
      NextInQueue(q, c);
      var rest' := out || (at == p && c in q[1..]);
      match CellOf(s, x) {
        case Empty =>
          EmptyLocated(s, x, c, at, rest', at == p && x == c);
          RunQueueLocated(s, p, ev, q[1..], woken, runs, c, at, out);
        case Waiter(_, _, _) =>
          EmptyingLocated(s, x, c, at, rest', at == p && x == c);
          RunQueueLocated(Emptied(s, x), p, ev, q[1..], woken + [WakeFor(CellOf(s, x), p.emitter, ev)], runs, c, at, out);
        case Hook(_, _) =>
          var s1 := s.(log := s.log + [x]);
          Unlogged(s, s1, c, at, out || (at == p && c in q));
          match runs {
            case NoMore =>
              AfterHookLocated(s1, p, x, Returns, c, at, rest');
              AfterHookAged(s1, p, x, Returns, c);
              RunQueueLocated(AfterHook(s1, p, x, Returns), p, ev, q[1..], woken, NoMore, c, at, out);
            case Next(body, ends, rest) =>
              var s2 := Perform(s1, body);
              PerformAges(s1, body, c);
              PerformLocated(s1, body, c, at, out || (at == p && c in q));
              AfterHookLocated(s2, p, x, ends, c, at, rest');
              AfterHookAged(s2, p, x, ends, c);
              RunQueueLocated(AfterHook(s2, p, x, ends), p, ev, q[1..], woken, rest, c, at, out);
          }
      }
    }
  }

  lemma AfterHookAged(s: State, p: Place, x: CellId, ends: Ending, c: CellId)
    requires Full(s, c) ==> !Collectable(s, c)
    ensures var s' := AfterHook(s, p, x, ends); |s'.cells| == |s.cells| && (Full(s', c) ==> !Collectable(s', c))
  {
  }

  lemma Unlogged(s: State, s': State, c: CellId, at: Place, out: bool)
    requires s' == s.(log := s'.log, ready := s'.ready, processing := s'.processing, tasks := s'.tasks, running := s'.running, stuck := s'.stuck, spares := s'.spares)
    requires Located(s, c, at, out)
    ensures Located(s', c, at, out)
    ensures Collectable(s', c) == Collectable(s, c)
  {
  }

  lemma EmptyLocated(s: State, x: CellId, c: CellId, at: Place, out: bool, here: bool)
    requires CellOf(s, x) == Empty && (here ==> x == c) && Located(s, c, at, out || here)
    ensures Located(s, c, at, out)
  {
  }

  lemma ParseLocated(s: State, p: Place, ev: Event, woken: seq<Wake>, runs: Scripts, c: CellId, at: Place, out: bool)
    requires Located(s, c, at, out)
    requires Full(s, c) ==> !Collectable(s, c)
    requires c < |s.cells| || AllQuiet(runs)
    ensures Located(Parse(s, p, ev, woken, runs).state, c, at, out)
    decreases runs, |Queue(s.waiting, p)|, 1
  {
    if p.event in RowsOf(s.waiting, p.emitter) {
      var s1 := s.(waiting := Put(s.waiting, p, []));
      RunQueueLocated(s1, p, ev, Queue(s.waiting, p), woken, runs, c, at, out);
      var a := RunQueue(s1, p, ev, Queue(s.waiting, p), woken, runs);
      TidiedQueue(a.state.waiting, p, at);
    }
  }

  lemma TidiedQueue(w: Table, p: Place, at: Place)
    ensures Queue(Tidied(w, p), at) == Queue(w, at)
  {
    if p.emitter in w && at.emitter == p.emitter && at.event != p.event && at.event in w[p.emitter] {
      assert at.event in w[p.emitter] - {p.event};
    }
  }

  lemma ApplyLocated(s: State, effect: Effect, c: CellId, at: Place, out: bool)
    requires Located(s, c, at, out)
    requires Full(s, c) ==> !Collectable(s, c)
    requires c < |s.cells| || Quiet(effect)
    ensures Located(Apply(s, effect), c, at, out)
    decreases effect, 0, 3
  {
    match effect {
      case Spawn =>
      case AddHook(e, entries, once) => AddingLocated(s, Hook(once, AllPlaces([e], entries)), [e], entries, c, at, out);
      case KillHook(c) =>
      case Collect => InCollected(s, c, at);
      case LateWait(es, entries, multi) =>
        if s.running.Some? && !s.stuck {
          var s1 := Waiting(s, es, entries, multi);
          AddingLocated(s, Waiter(s.running.value, multi, AllPlaces(es, entries)), es, entries, c, at, out);
          Unlogged(s1, WaitedLate(s, es, entries, multi), c, at, out);
        }
      case LateYield => Unlogged(s, YieldedLate(s), c, at, out);
      case Emit(e, ev, star, named) =>
        if e in s.waiting {
          EmitLocated(s, e, ev, star, named, c, at, out);
        }
    }
  }

  lemma EmitLocated(s: State, e: Emitter, ev: Event, star: Scripts, named: Scripts, c: CellId, at: Place, out: bool)
    requires Located(s, c, at, out) && e in s.waiting
    requires Full(s, c) ==> !Collectable(s, c)
    requires c < |s.cells| || (AllQuiet(star) && AllQuiet(named))
    ensures Located(Apply(s, Emit(e, ev, star, named)), c, at, out)
    decreases Emit(e, ev, star, named), 0, 2
  {
    hide Located, Collectable, Parse;
    var s1 := s.(processing := true);
    Unlogged(s, s1, c, at, out);
    ParseLocated(s1, Place(e, STAR), ev, [], star, c, at, out);
    ParseAges(s1, Place(e, STAR), ev, [], star, c);
    var a := Parse(s1, Place(e, STAR), ev, [], star);
    Uncollected(s1, a.state, c);
    ParseLocated(a.state, Place(e, ev), ev, a.woken, named, c, at, out);
    var b := Parse(a.state, Place(e, ev), ev, a.woken, named);
    Unlogged(b.state, b.state.(processing := s.processing, ready := b.state.ready + b.woken), c, at, out);
  }

  lemma Uncollected(s: State, s': State, c: CellId)
    requires Aged(s, s', c) && (c < |s.cells| || AgedQuietly(s, s', c)) && (Full(s, c) ==> !Collectable(s, c))
    ensures Full(s', c) ==> !Collectable(s', c)
  {
  }

  lemma {:induction false} PerformLocated(s: State, script: Script, c: CellId, at: Place, out: bool)
    requires Located(s, c, at, out)
    requires Full(s, c) ==> !Collectable(s, c)
    requires c < |s.cells| || ScriptQuiet(script)
    ensures Located(Perform(s, script), c, at, out)
    decreases script, 0, 4
  {
    match script {
      case Done =>
      case Do(effect, next) =>
        ApplyLocated(s, effect, c, at, out);
        ApplyAges(s, effect, c);
        PerformLocated(Apply(s, effect), next, c, at, out);
    }
  }

  /* ---- Runs ---- */

  lemma NoDeadCells(s: State, c: CellId)
    requires Conserved(s)
    ensures Full(s, c) ==> !Collectable(s, c)
  {
    if CellOf(s, c).Waiter? {
      CellCounts(s.cells, c);
      assert Excess(s, s.cells[c].task) == 0;
    }
  }

  lemma StepLocated(s: State, a: Action, c: CellId, at: Place)
    requires Sane(s) && Conserved(s) && Enabled(s, a) && InTime(a)
    requires Located(s, c, at, false)
    ensures Located(Step(s, a), c, at, false)
  {
    NoDeadCells(s, c);
    match a {
      case Resume =>
      case Act(effect) => ApplyLocated(s, effect, c, at, false);
      case Yield =>
      case Wait(es, entries, multi) =>
        AddingLocated(s, Waiter(s.running.value, multi, AllPlaces(es, entries)), es, entries, c, at, false);
      case Die(star, named) =>
        var r := s.running.value;
        var s1 := s.(dead := s.dead + {r});
        assert Excess(s, r) == 0;
        if CellOf(s, c).Waiter? {
          CellCounts(s.cells, c);
        }
        ApplyLocated(s1, Emit(Thread(r), DIE, star, named), c, at, false);
        Unlogged(Apply(s1, Emit(Thread(r), DIE, star, named)), Step(s, a), c, at, false);
      case Expire(x, e, body) =>
        match CellOf(s, x) {
          case Empty =>
          case Waiter(_, _, _) => EmptyingLocated(s, x, c, at, false, false);
          case Hook(_, _) =>
            var s1 := s.(log := s.log + [x]);
            PerformLocated(s1, body, c, at, false);
            EmptyingLocated(Perform(s1, body), x, c, at, false, false);
        }
    }
  }

  /** A cell sits in the queues of exactly the places it was registered at, until it is emptied. */
  ghost predicate AllLocated(s: State) {
    forall c, p {:trigger Located(s, c, p, false)} :: Located(s, c, p, false)
  }

  /** Task conservation: whatever the interleaving, a live task is running, or in the ready list once, or in exactly
      one cell, and that cell is in the queue of every event it waits for. */
  lemma {:induction false} RunKeepsTasks(s: State, actions: seq<Action>)
    requires Sane(s) && Conserved(s) && AllLocated(s) && CanRun(s, actions) && AllInTime(actions)
    ensures Conserved(Reached(s, actions)) && AllLocated(Reached(s, actions))
    decreases |actions|
  {
    if actions != [] {
      assert InTime(actions[0]);
      StepKeepsTasks(s, actions[0]);
      RunKeepsTasks(Step(s, actions[0]), actions[1..]);
    }
  }

  lemma StepKeepsTasks(s: State, a: Action)
    requires Sane(s) && Conserved(s) && AllLocated(s) && Enabled(s, a) && InTime(a)
    ensures Sane(Step(s, a)) && Conserved(Step(s, a)) && AllLocated(Step(s, a))
  {
    StepConservesIff(s, a);
    forall c: CellId, p ensures Located(Step(s, a), c, p, false) {
      assert Located(s, c, p, false);
      StepLocated(s, a, c, p);
    }
  }

  lemma Initially()
    ensures Sane(INITIAL) && Conserved(INITIAL) && AllLocated(INITIAL)
  {
  }

  /* ---- What a signal wakes ---- */

  predicate IsWaiter(s: State, c: CellId) { CellOf(s, c).Waiter? }

  lemma {:induction false} RunQueueWakes(s: State, p: Place, ev: Event, q: seq<CellId>, woken: seq<Wake>, runs: Scripts,
                                         c: CellId)
    requires c < |s.cells| && !CellOf(s, c).Hook? && (c in q || !Full(s, c))
    ensures !Full(RunQueue(s, p, ev, q, woken, runs).state, c)
    decreases runs, |q|, 0
  {
    if q != [] {
      var x := q[0];
      NextInQueue(q, c);
      match CellOf(s, x) {
        case Empty => RunQueueWakes(s, p, ev, q[1..], woken, runs, c);
        case Waiter(_, _, _) =>
          RunQueueWakes(Emptied(s, x), p, ev, q[1..], woken + [WakeFor(CellOf(s, x), p.emitter, ev)], runs, c);
        case Hook(_, _) =>
          var s1 := s.(log := s.log + [x]);
          match runs {
            case NoMore => RunQueueWakes(AfterHook(s1, p, x, Returns), p, ev, q[1..], woken, NoMore, c);
            case Next(body, ends, rest) =>
              PerformAges(s1, body, c);
              RunQueueWakes(AfterHook(Perform(s1, body), p, x, ends), p, ev, q[1..], woken, rest, c);
          }
      }
    }
  }

  lemma {:induction false} OnlyCell(cells: seq<Cell>, c: CellId, x: CellId, t: Task)
    requires c < |cells| && x < |cells| && c != x && Holds(cells[c], t) && Holds(cells[x], t)
    ensures InCells(cells, t) >= 2
  {
    if c == 0 {
      CellCounts(cells[1..], x - 1);
    } else if x == 0 {
      CellCounts(cells[1..], c - 1);
    } else {
      OnlyCell(cells[1..], c - 1, x - 1, t);
    }
  }

  lemma {:induction false} NoCell(cells: seq<Cell>, t: Task)
    requires forall x :: 0 <= x < |cells| ==> !Holds(cells[x], t)
    ensures InCells(cells, t) == 0
  {
    if cells != [] {
      NoCell(cells[1..], t);
    }
  }

  /** A task whose cell has been emptied is in the ready list, once. */
  lemma NowReady(s: State, s': State, c: CellId)
    requires Conserved(s) && IsWaiter(s, c) && !Full(s', c) && Excess(s', CellOf(s, c).task) == 0
    requires forall x {:trigger AgedQuietly(s, s', x)} :: AgedQuietly(s, s', x)
    ensures InReady(s'.ready, CellOf(s, c).task) == 1
  {
    var t := CellOf(s, c).task;
    assert Excess(s, t) == 0;
    CellCounts(s.cells, c);
    forall x | 0 <= x < |s'.cells| ensures !Holds(s'.cells[x], t) {
      assert AgedQuietly(s, s', x);
      if x != c && x < |s.cells| && Holds(s.cells[x], t) {
        OnlyCell(s.cells, c, x, t);
      }
    }
    NoCell(s'.cells, t);
    assert AgedQuietly(s, s', 0);
  }

  /** A signal wakes every task that waits for it, or for any event of its emitter: it gets into the ready list. */
  lemma SignalWakes(s: State, e: Emitter, ev: Event, star: Scripts, named: Scripts, c: CellId)
    requires Sane(s) && AllLocated(s) && Conserved(s) && IsWaiter(s, c)
    requires RegisteredAt(s, c, Place(e, STAR)) || RegisteredAt(s, c, Place(e, ev))
    requires Quiet(Emit(e, ev, star, named))
    ensures var s' := Apply(s, Emit(e, ev, star, named)); !Full(s', c) && InReady(s'.ready, CellOf(s, c).task) == 1
  {
    hide Quiet, AllQuiet;
    var s' := Apply(s, Emit(e, ev, star, named));
    SignalEmpties(s, e, ev, star, named, c);
    forall x: CellId ensures AgedQuietly(s, s', x) {
      ApplyAges(s, Emit(e, ev, star, named), x);
    }
    ApplyAges(s, Emit(e, ev, star, named), 0);
    ApplyExcess(s, Emit(e, ev, star, named), CellOf(s, c).task);
    assert Excess(s, CellOf(s, c).task) == 0;
    NowReady(s, s', c);
  }

  lemma SignalEmpties(s: State, e: Emitter, ev: Event, star: Scripts, named: Scripts, c: CellId)
    requires AllLocated(s) && Conserved(s) && IsWaiter(s, c)
    requires RegisteredAt(s, c, Place(e, STAR)) || RegisteredAt(s, c, Place(e, ev))
    requires Quiet(Emit(e, ev, star, named))
    ensures !Full(Apply(s, Emit(e, ev, star, named)), c)
  {
    NoDeadCells(s, c);
    assert Located(s, c, Place(e, STAR), false) && Located(s, c, Place(e, ev), false);
    assert e in s.waiting;
    var s1 := s.(processing := true);
    var p1, p2 := Place(e, STAR), Place(e, ev);
    ParseWakes(s1, p1, ev, [], star, c);
    ParseAges(s1, p1, ev, [], star, c);
    var a := Parse(s1, p1, ev, [], star);
    ParseLocated(s1, p2.(event := STAR), ev, [], star, c, p2, false);
    ParseWakes(a.state, p2, ev, a.woken, named, c);
    ParseAges(a.state, p2, ev, a.woken, named, c);
  }

  lemma ParseWakes(s: State, p: Place, ev: Event, woken: seq<Wake>, runs: Scripts, c: CellId)
    requires c < |s.cells| && !CellOf(s, c).Hook? && Located(s, c, p, false)
    ensures RegisteredAt(s, c, p) || !Full(s, c) ==> !Full(Parse(s, p, ev, woken, runs).state, c)
  {
    if (RegisteredAt(s, c, p) || !Full(s, c)) && p.event in RowsOf(s.waiting, p.emitter) {
      RunQueueWakes(s.(waiting := Put(s.waiting, p, [])), p, ev, Queue(s.waiting, p), woken, runs, c);
    }
  }

  /** The effect, or some hook it may run in turn, signals one of the places. */
  predicate Touches(effect: Effect, at: set<Place>)
    decreases effect
  {
    effect.Emit? && (Place(effect.emitter, STAR) in at || Place(effect.emitter, effect.event) in at ||
                     AnyTouches(effect.star, at) || AnyTouches(effect.named, at))
  }

  predicate ScriptTouches(script: Script, at: set<Place>)
    decreases script
  {
    script.Do? && (Touches(script.effect, at) || ScriptTouches(script.next, at))
  }

  predicate AnyTouches(runs: Scripts, at: set<Place>)
    decreases runs
  {
    runs.Next? && (ScriptTouches(runs.body, at) || AnyTouches(runs.rest, at))
  }

  /** Where cell c was registered. */
  function PlacesOf(s: State, c: CellId): set<Place> {
    if CellOf(s, c) == Empty then {} else set p | p in CellOf(s, c).at
  }

  /** Cell c waits at some of the places at, and is in no other queue. */
  ghost predicate Sleeps(s: State, c: CellId, at: set<Place>) {
    IsWaiter(s, c) && !Collectable(s, c) &&
    forall p {:trigger Queue(s.waiting, p)} :: c in Queue(s.waiting, p) ==> p in at
  }

  lemma {:induction false} RunQueueSpares(s: State, p: Place, ev: Event, q: seq<CellId>, woken: seq<Wake>, runs: Scripts,
                                          c: CellId, at: set<Place>)
    requires Sleeps(s, c, at) && p !in at && c !in q && !AnyTouches(runs, at)
    ensures Sleeps(RunQueue(s, p, ev, q, woken, runs).state, c, at)
    decreases runs, |q|, 0
  {
    hide Sleeps;
    if q != [] {
      var x := q[0];
      match CellOf(s, x) {
        case Empty => RunQueueSpares(s, p, ev, q[1..], woken, runs, c, at);
        case Waiter(_, _, _) =>
          var s1 := Emptied(s, x);
          StillAsleep(s, s1, c, at);
          RunQueueSpares(s1, p, ev, q[1..], woken + [WakeFor(CellOf(s, x), p.emitter, ev)], runs, c, at);
        case Hook(_, _) =>
          var s1 := s.(log := s.log + [x]);
          StillAsleep(s, s1, c, at);
          match runs {
            case NoMore =>
              StillAsleep(s1, AfterHook(s1, p, x, Returns), c, at);
              RunQueueSpares(AfterHook(s1, p, x, Returns), p, ev, q[1..], woken, NoMore, c, at);
            case Next(body, ends, rest) =>
              var s2 := Perform(s1, body);
              PerformSpares(s1, body, c, at);
              StillAsleep(s2, AfterHook(s2, p, x, ends), c, at);
              RunQueueSpares(AfterHook(s2, p, x, ends), p, ev, q[1..], woken, rest, c, at);
          }
      }
    }
  }

  lemma StillAsleep(s: State, s': State, c: CellId, at: set<Place>)
    requires Sleeps(s, c, at)
    requires CellOf(s', c) == CellOf(s, c) && s'.dead == s.dead
    requires forall p {:trigger Queue(s'.waiting, p)} :: c in Queue(s'.waiting, p) ==> c in Queue(s.waiting, p)
    ensures Sleeps(s', c, at)
  {
  }

  lemma ParseSpares(s: State, p: Place, ev: Event, woken: seq<Wake>, runs: Scripts, c: CellId, at: set<Place>)
    requires Sleeps(s, c, at) && p !in at && !AnyTouches(runs, at)
    ensures Sleeps(Parse(s, p, ev, woken, runs).state, c, at)
    decreases runs, |Queue(s.waiting, p)|, 1
  {
    if p.event in RowsOf(s.waiting, p.emitter) {
      var s1 := s.(waiting := Put(s.waiting, p, []));
      forall x: Place ensures Queue(s1.waiting, x) == if x == p then [] else Queue(s.waiting, x) {
      }
      StillAsleep(s, s1, c, at);
      RunQueueSpares(s1, p, ev, Queue(s.waiting, p), woken, runs, c, at);
      var a := RunQueue(s1, p, ev, Queue(s.waiting, p), woken, runs).state;
      var a' := a.(waiting := Tidied(a.waiting, p));
      forall x: Place ensures Queue(a'.waiting, x) == Queue(a.waiting, x) {
        TidiedQueue(a.waiting, p, x);
      }
    }
  }

  /** A task that waits is left alone by every effect that does not signal what it waits for. */
  lemma ApplySpares(s: State, effect: Effect, c: CellId, at: set<Place>)
    requires Sleeps(s, c, at) && !Touches(effect, at)
    ensures Sleeps(Apply(s, effect), c, at)
    decreases effect, 0, 3
  {
    match effect {
      case Spawn =>
      case AddHook(e, entries, once) =>
        var s' := Apply(s, effect);
        forall p: Place ensures c in Queue(s'.waiting, p) ==> c in Queue(s.waiting, p) {
          InRegisteredAll(s.waiting, [e], entries, |s.cells|, c, p);
        }
      case KillHook(c) =>
      case Collect =>
        forall p: Place ensures c in Queue(Collected(s).waiting, p) ==> c in Queue(s.waiting, p) {
          InCollected(s, c, p);
        }
      case Emit(e, ev, star, named) =>
        if e in s.waiting {
          EmitSpares(s, e, ev, star, named, c, at);
        }
      case LateWait(es, entries, multi) =>
        var s' := Apply(s, effect);
        forall p: Place ensures c in Queue(s'.waiting, p) ==> c in Queue(s.waiting, p) {
          InRegisteredAll(s.waiting, es, entries, |s.cells|, c, p);
        }
      case LateYield =>
    }
  }

  lemma EmitSpares(s: State, e: Emitter, ev: Event, star: Scripts, named: Scripts, c: CellId, at: set<Place>)
    requires Sleeps(s, c, at) && !Touches(Emit(e, ev, star, named), at) && e in s.waiting
    ensures Sleeps(Apply(s, Emit(e, ev, star, named)), c, at)
    decreases Emit(e, ev, star, named), 0, 2
  {
    hide Sleeps, Parse;
    var s1 := s.(processing := true);
    StillAsleep(s, s1, c, at);
    ParseSpares(s1, Place(e, STAR), ev, [], star, c, at);
    var a := Parse(s1, Place(e, STAR), ev, [], star);
    ParseSpares(a.state, Place(e, ev), ev, a.woken, named, c, at);
    var b := Parse(a.state, Place(e, ev), ev, a.woken, named);
    StillAsleep(b.state, b.state.(processing := s.processing, ready := b.state.ready + b.woken), c, at);
  }

  lemma {:induction false} PerformSpares(s: State, script: Script, c: CellId, at: set<Place>)
    requires Sleeps(s, c, at) && !ScriptTouches(script, at)
    ensures Sleeps(Perform(s, script), c, at)
    decreases script, 0, 4
  {
    match script {
      case Done =>
      case Do(effect, next) =>
        ApplySpares(s, effect, c, at);
        PerformSpares(Apply(s, effect), next, c, at);
    }
  }

  lemma Asleep(s: State, c: CellId)
    requires AllLocated(s) && Conserved(s) && IsWaiter(s, c)
    ensures Sleeps(s, c, PlacesOf(s, c))
  {
    NoDeadCells(s, c);
    forall p: Place ensures c in Queue(s.waiting, p) ==> p in PlacesOf(s, c) {
      assert Located(s, c, p, false);
    }
  }

  /** The action signals one of the places of cell c, or its timeout elapses. */
  predicate ActionTouches(s: State, a: Action, c: CellId, at: set<Place>) {
    match a
    case Act(effect) => Touches(effect, at)
    case Die(star, named) => s.running.Some? && Touches(Emit(Thread(s.running.value), DIE, star, named), at)
    case Expire(x, _, body) => x == c || (CellOf(s, x).Hook? && ScriptTouches(body, at))
    case _ => false
  }

  predicate RunTouches(s: State, actions: seq<Action>, c: CellId, at: set<Place>)
    requires CanRun(s, actions)
    decreases |actions|
  {
    actions != [] && (ActionTouches(s, actions[0], c, at) || RunTouches(Step(s, actions[0]), actions[1..], c, at))
  }

  lemma StepSpares(s: State, a: Action, c: CellId, at: set<Place>)
    requires Conserved(s) && Enabled(s, a) && Sleeps(s, c, at) && !ActionTouches(s, a, c, at)
    ensures IsWaiter(Step(s, a), c) && CellOf(Step(s, a), c) == CellOf(s, c)
  {
    var s' := Step(s, a);
    match a {
      case Resume =>
      case Act(effect) =>
        ApplySpares(s, effect, c, at);
        ApplyAges(s, effect, c);
      case Yield =>
      case Wait(es, entries, multi) =>
      case Die(star, named) => DieSpares(s, star, named, c, at);
      case Expire(x, e, body) =>
        if CellOf(s, x).Hook? {
          var s1 := s.(log := s.log + [x]);
          StillAsleep(s, s1, c, at);
          PerformSpares(s1, body, c, at);
          PerformAges(s1, body, c);
        }
    }
  }

  lemma DieSpares(s: State, star: Scripts, named: Scripts, c: CellId, at: set<Place>)
    requires Conserved(s) && s.running.Some? && Sleeps(s, c, at) && !ActionTouches(s, Die(star, named), c, at)
    ensures IsWaiter(Step(s, Die(star, named)), c) && CellOf(Step(s, Die(star, named)), c) == CellOf(s, c)
  {
    var r := s.running.value;
    var s1 := s.(dead := s.dead + {r});
    assert Excess(s, r) == 0;
    CellCounts(s.cells, c);
    assert Sleeps(s1, c, at);
    ApplySpares(s1, Emit(Thread(r), DIE, star, named), c, at);
    ApplyAges(s1, Emit(Thread(r), DIE, star, named), c);
  }

  /** Over any run a waiting task sleeps on until something it waits for is signalled, or its delay has elapsed. */
  lemma {:induction false} WakesOnlyOnSignal(s: State, actions: seq<Action>, c: CellId)
    requires Sane(s) && Conserved(s) && AllLocated(s) && CanRun(s, actions) && AllInTime(actions)
    requires IsWaiter(s, c) && !RunTouches(s, actions, c, PlacesOf(s, c))
    ensures CellOf(Reached(s, actions), c) == CellOf(s, c)
    decreases |actions|
  {
    hide Sleeps, ActionTouches;
    if actions != [] {
      var s' := Step(s, actions[0]);
      Asleep(s, c);
      StepSpares(s, actions[0], c, PlacesOf(s, c));
      assert InTime(actions[0]);
      StepKeepsTasks(s, actions[0]);
      WakesOnlyOnSignal(s', actions[1..], c);
    }
  }

  /* ---- In which order ---- */

  /** The wakes for the waiting cells of q, in the order of q, each once, without those in done. */
  function Fresh(s: State, q: seq<CellId>, done: set<CellId>, e: Emitter, ev: Event): seq<Wake> {
    if q == [] then []
    else
      var cell := CellOf(s, q[0]);
      (if q[0] !in done && cell.Waiter? then [Woken(cell.task, if cell.multi then Some(e) else None, ev)] else [])
         + Fresh(s, q[1..], done + {q[0]}, e, ev)
  }

  /** The hooks of q in the order of q: those with once only the first time, and not those of these in done. */
  function HookRuns(s: State, q: seq<CellId>, done: set<CellId>): seq<CellId> {
    if q == [] then []
    else (if CellOf(s, q[0]).Hook? && (CellOf(s, q[0]).once ==> q[0] !in done) then [q[0]] else [])
         + HookRuns(s, q[1..], done + {q[0]})
  }

  /** A cell that is empty once it has been dealt with. */
  predicate Spent(s: State, c: CellId) {
    CellOf(s, c).Hook? ==> CellOf(s, c).once
  }

  /** t is s after the cells in done have been dealt with. */
  ghost predicate DealtWith(s: State, t: State, done: set<CellId>) {
    forall c {:trigger CellOf(t, c)} :: CellOf(t, c) == if c in done && Spent(s, c) then Empty else CellOf(s, c)
  }

  function Members(q: seq<CellId>): set<CellId> {
    set c | c in q
  }

  /** What has become of t when the queue q of p has been dealt with, the cells in done before. */
  ghost predicate InOrder(s: State, t: State, done: set<CellId>, p: Place, ev: Event, q: seq<CellId>, woken: seq<Wake>,
                          a: Pass) {
    && a.woken == woken + Fresh(s, q, done, p.emitter, ev)
    && a.state.log == t.log + HookRuns(s, q, done)
    && a.state.ready == t.ready
    && DealtWith(s, a.state, done + Members(q))
    && OthersKept(t, a.state, p)
  }

  ghost predicate OthersKept(t: State, u: State, p: Place) {
    forall x {:trigger Queue(u.waiting, x)} :: x != p ==> Queue(u.waiting, x) == Queue(t.waiting, x)
  }

  lemma EmptiedIsDealtWith(s: State, t: State, done: set<CellId>, c: CellId)
    requires DealtWith(s, t, done) && Spent(s, c)
    ensures DealtWith(s, Emptied(t, c), done + {c})
  {
    forall x ensures CellOf(Emptied(t, c), x) == if x in done + {c} && Spent(s, x) then Empty else CellOf(s, x) {
      assert CellOf(t, x) == if x in done && Spent(s, x) then Empty else CellOf(s, x);
    }
  }

  lemma KeptIsDealtWith(s: State, t: State, u: State, done: set<CellId>, c: CellId)
    requires DealtWith(s, t, done) && u.cells == t.cells && (Spent(s, c) ==> CellOf(t, c).Empty?)
    ensures DealtWith(s, u, done + {c})
  {
    forall x ensures CellOf(u, x) == if x in done + {c} && Spent(s, x) then Empty else CellOf(s, x) {
      assert CellOf(t, x) == if x in done && Spent(s, x) then Empty else CellOf(s, x);
    }
  }

  lemma OneMore(s: State, t: State, u: State, done: set<CellId>, p: Place, ev: Event, q: seq<CellId>, woken: seq<Wake>,
                more: seq<Wake>, ran: seq<CellId>, a: Pass)
    requires q != [] && Fresh(s, q, done, p.emitter, ev) == more + Fresh(s, q[1..], done + {q[0]}, p.emitter, ev)
    requires HookRuns(s, q, done) == ran + HookRuns(s, q[1..], done + {q[0]})
    requires u.log == t.log + ran && u.ready == t.ready && OthersKept(t, u, p)
    requires InOrder(s, u, done + {q[0]}, p, ev, q[1..], woken + more, a)
    ensures InOrder(s, t, done, p, ev, q, woken, a)
  {
    hide Fresh, HookRuns, DealtWith;
    assert done + {q[0]} + Members(q[1..]) == done + Members(q);
    assert (woken + more) + Fresh(s, q[1..], done + {q[0]}, p.emitter, ev) == woken + Fresh(s, q, done, p.emitter, ev);
    assert (t.log + ran) + HookRuns(s, q[1..], done + {q[0]}) == t.log + HookRuns(s, q, done);
    forall x | x != p ensures Queue(a.state.waiting, x) == Queue(t.waiting, x) {
      assert Queue(a.state.waiting, x) == Queue(u.waiting, x);
    }
  }

  lemma {:induction false} RunQueueInOrder(s: State, t: State, done: set<CellId>, p: Place, ev: Event, q: seq<CellId>,
                                           woken: seq<Wake>)
    requires DealtWith(s, t, done)
    ensures InOrder(s, t, done, p, ev, q, woken, RunQueue(t, p, ev, q, woken, NoMore))
    decreases q
  {
    hide DealtWith, InOrder, AfterHook, Emptied, OthersKept;
    if q == [] {
      NothingInOrder(s, t, done, p, ev, woken);
    } else {
      var c := q[0];
      var more, ran, u := DealWith(s, t, done, p, ev, q);
      RunQueueInOrder(s, u, done + {c}, p, ev, q[1..], woken + more);
      assert woken + [] == woken;
      OneMore(s, t, u, done, p, ev, q, woken, more, ran, RunQueue(u, p, ev, q[1..], woken + more, NoMore));
    }
  }

  lemma NothingInOrder(s: State, t: State, done: set<CellId>, p: Place, ev: Event, woken: seq<Wake>)
    requires DealtWith(s, t, done)
    ensures InOrder(s, t, done, p, ev, [], woken, Pass(t, woken))
  {
    assert woken + [] == woken && t.log + [] == t.log && done + Members([]) == done;
  }

  /** The first cell of q: what gets woken, what runs, and the state after it. */
  lemma DealWith(s: State, t: State, done: set<CellId>, p: Place, ev: Event, q: seq<CellId>)
    returns (more: seq<Wake>, ran: seq<CellId>, u: State)
    requires DealtWith(s, t, done) && q != []
    ensures Fresh(s, q, done, p.emitter, ev) == more + Fresh(s, q[1..], done + {q[0]}, p.emitter, ev)
    ensures HookRuns(s, q, done) == ran + HookRuns(s, q[1..], done + {q[0]})
    ensures u.log == t.log + ran && u.ready == t.ready && OthersKept(t, u, p)
    ensures DealtWith(s, u, done + {q[0]})
    ensures var cell := CellOf(t, q[0]);
      && (cell.Empty? ==> more == [] && u == t)
      && (cell.Waiter? ==> more == [WakeFor(cell, p.emitter, ev)] && u == Emptied(t, q[0]))
      && (cell.Hook? ==> more == [] && u == AfterHook(t.(log := t.log + [q[0]]), p, q[0], Returns))
  {
    var c := q[0];
    assert CellOf(t, c) == if c in done && Spent(s, c) then Empty else CellOf(s, c);
    more, ran, u := [], [], t;
    match CellOf(t, c) {
      case Empty =>
        KeptIsDealtWith(s, t, u, done, c);
      case Waiter(_, _, _) =>
        more, u := [WakeFor(CellOf(t, c), p.emitter, ev)], Emptied(t, c);
        EmptiedIsDealtWith(s, t, done, c);
      case Hook(once, _) =>
        ran := [c];
        var t1 := t.(log := t.log + [c]);
        u := AfterHook(t1, p, c, Returns);
        KeptLog(s, t, t1, done);
        if once {
          EmptiedIsDealtWith(s, t1, done, c);
        } else {
          KeptIsDealtWith(s, t, u, done, c);
        }
    }
  }

  lemma KeptLog(s: State, t: State, u: State, done: set<CellId>)
    requires DealtWith(s, t, done) && u.cells == t.cells
    ensures DealtWith(s, u, done)
  {
    forall x ensures CellOf(u, x) == if x in done && Spent(s, x) then Empty else CellOf(s, x) {
      assert CellOf(t, x) == if x in done && Spent(s, x) then Empty else CellOf(s, x);
    }
  }

  /** With hooks that do nothing else: tasks get ready in the order in which they began to wait, first those for any
      event and then those for the event, each once; hooks run in that order too, those with once the first time only. */
  lemma SignalInOrder(s: State, e: Emitter, ev: Event)
    requires ev != STAR
    ensures var q, r := Queue(s.waiting, Place(e, STAR)), Queue(s.waiting, Place(e, ev));
      var s' := Apply(s, Emit(e, ev, NoMore, NoMore));
      && s'.ready == s.ready + (Fresh(s, q, {}, e, ev) + Fresh(s, r, Members(q), e, ev))
      && s'.log == s.log + HookRuns(s, q, {}) + HookRuns(s, r, Members(q))
  {
    hide Parse, Apply, Fresh, HookRuns;
    var s1 := s.(processing := true);
    var p1, p2 := Place(e, STAR), Place(e, ev);
    var q, r := Queue(s.waiting, p1), Queue(s.waiting, p2);
    EmitPath(s, e, ev, NoMore, NoMore);
    ParseInOrder(s, s1, {}, p1, ev, []);
    var a := Parse(s1, p1, ev, [], NoMore);
    assert {} + Members(q) == Members(q) && [] + Fresh(s, q, {}, e, ev) == Fresh(s, q, {}, e, ev);
    assert Queue(a.state.waiting, p2) == r;
    ParseInOrder(s, a.state, Members(q), p2, ev, a.woken);
  }

  lemma ParseInOrder(s: State, t: State, done: set<CellId>, p: Place, ev: Event, woken: seq<Wake>)
    requires DealtWith(s, t, done)
    ensures InOrder(s, t, done, p, ev, Queue(t.waiting, p), woken, Parse(t, p, ev, woken, NoMore))
  {
    hide RunQueue, Fresh, HookRuns, Tidied;
    var q := Queue(t.waiting, p);
    if p.event in RowsOf(t.waiting, p.emitter) {
      var t1 := t.(waiting := Put(t.waiting, p, []));
      KeptLog(s, t, t1, done);
      RunQueueInOrder(s, t1, done, p, ev, q, woken);
      var a := RunQueue(t1, p, ev, q, woken, NoMore);
      var b := a.state.(waiting := Tidied(a.state.waiting, p));
      KeptLog(s, a.state, b, done + Members(q));
      forall x | x != p ensures Queue(b.waiting, x) == Queue(t.waiting, x) {
        TidiedQueue(a.state.waiting, p, x);
        assert Queue(a.state.waiting, x) == Queue(t1.waiting, x);
      }
    } else {
      NothingInOrder(s, t, done, p, ev, woken);
      assert Fresh(s, [], done, p.emitter, ev) == [];
    }
  }
}
