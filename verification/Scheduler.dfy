/** The scheduler's tables and the functions of sched/init.lua that update them in place. */
module Scheduler {
  import opened Bytes
  import opened SchedModel
  import opened SchedConservation
  import opened SchedOrder

  /** How a task gives the processor back, or means to. */
  datatype End = Yields | Waits(emitters: seq<Emitter>, entries: seq<Entry>, multi: bool) | Returns

  /** What a task does when resumed, up to its next switch; and what the hooks of its "die" signal do if it comes to
      that: a wait that fails ends the task, and so does being dead already. */
  datatype Turn = Turn(does: Script, end: End, star: Scripts, named: Scripts)

  predicate GoodTurn(turn: Turn) {
    turn.end.Waits? && !turn.end.multi ==> |turn.end.emitters| == 1
  }

  /** The end of a turn, as actions. */
  function EndActions(s: State, turn: Turn): seq<Action> {
    var die := Die(turn.star, turn.named);
    match turn.end
    case Returns => [die]
    case Yields => if s.stuck then [die] else [Yield]
    case Waits(es, entries, multi) =>
      if s.stuck then [die]
      else if TwoDelays(es, entries) then [Wait(es, entries, multi), die]
      else [Wait(es, entries, multi)]
  }

  /** One task is resumed. */
  function OneTurn(s: State, turn: Turn): (s': State)
    requires s.running == None && s.ready != [] && GoodTurn(turn)
    ensures s'.running == None
  {
    var s1 := Step(s, Resume);
    if !Busy(s1) then Step(s1, Die(turn.star, turn.named))
    else
      var s2 := Perform(s1, turn.does);
      TurnRuns(s1, turn);
      Reached(s2, EndActions(s2, turn))
  }

  lemma TurnRuns(s: State, turn: Turn)
    requires Busy(s) && GoodTurn(turn)
    ensures var s' := Perform(s, turn.does);
      Busy(s') && CanRun(s', EndActions(s', turn)) && Reached(s', EndActions(s', turn)).running == None
  {
    PerformAges(s, turn.does, 0);
    var s' := Perform(s, turn.does);
    var actions := EndActions(s', turn);
    if |actions| == 1 {
      assert actions[1..] == [];
      assert Reached(s', actions) == Reached(Step(s', actions[0]), []) == Step(s', actions[0]);
    } else {
      var s2 := Step(s', actions[0]);
      assert actions[1..] == [Die(turn.star, turn.named)] && actions[1..][1..] == [];
      assert Enabled(s2, actions[1]) && CanRun(Step(s2, actions[1]), []);
      assert Reached(s', actions) == Reached(s2, actions[1..]) == Step(s2, actions[1]);
    }
  }

  /** A pass of step: tasks are resumed, turn by turn, while some are ready. */
  function Turns(s: State, turns: seq<Turn>): (s': State)
    requires s.running == None && forall t :: t in turns ==> GoodTurn(t)
    ensures s'.running == None
    decreases |turns|
  {
    if turns == [] || s.ready == [] then s else Turns(OneTurn(s, turns[0]), turns[1..])
  }

  /** No wait of the turn fails too late. */
  predicate InTimeTurn(turn: Turn) {
    && ScriptQuiet(turn.does) && AllQuiet(turn.star) && AllQuiet(turn.named)
    && (turn.end.Waits? ==> !TwoDelays(turn.end.emitters, turn.end.entries))
  }

  lemma {:induction false} PerformConserves(s: State, script: Script)
    requires Sane(s) && Conserved(s) && ScriptQuiet(script)
    ensures Sane(Perform(s, script)) && Conserved(Perform(s, script))
  {
    PerformAges(s, script, 0);
    forall t: Task ensures Excess(Perform(s, script), t) == 0 {
      PerformExcess(s, script, t);
      assert Excess(s, t) == 0;
    }
    PerformExcess(s, script, 0);
  }

  /** A pass of step keeps every task, if no wait fails too late. */
  lemma {:induction false} TurnsConserve(s: State, turns: seq<Turn>)
    requires Sane(s) && Conserved(s) && s.running == None
    requires forall t :: t in turns ==> GoodTurn(t) && InTimeTurn(t)
    ensures Sane(Turns(s, turns)) && Conserved(Turns(s, turns))
    decreases |turns|
  {
    if turns != [] && s.ready != [] {
      var turn := turns[0];
      assert InTimeTurn(turn) && GoodTurn(turn);
      TurnConserves(s, turn);
      TurnsConserve(OneTurn(s, turn), turns[1..]);
    }
  }

  lemma TurnConserves(s: State, turn: Turn)
    requires Sane(s) && Conserved(s) && s.running == None && s.ready != [] && GoodTurn(turn) && InTimeTurn(turn)
    ensures Sane(OneTurn(s, turn)) && Conserved(OneTurn(s, turn))
  {
    FirstIsAlive(s);
    StepConservesIff(s, Resume);
    var s1 := Step(s, Resume);
    PerformConserves(s1, turn.does);
    TurnRuns(s1, turn);
    var s2 := Perform(s1, turn.does);
    RunConserves(s2, EndActions(s2, turn));
  }

  /* ---- A pass of step as a run ---- */

  function ActsOf(script: Script): seq<Action> {
    match script
    case Done => []
    case Do(effect, next) => [Act(effect)] + ActsOf(next)
  }

  lemma {:induction false} RunsJoin(s: State, a: seq<Action>, b: seq<Action>)
    requires CanRun(s, a) && CanRun(Reached(s, a), b)
    ensures CanRun(s, a + b) && Reached(s, a + b) == Reached(Reached(s, a), b)
    ensures ResumedIn(s, a + b) == ResumedIn(s, a) + ResumedIn(Reached(s, a), b)
    decreases |a|
  {
    hide Step, Enabled;
    if a == [] {
      assert a + b == b;
    } else {
      assert (a + b)[1..] == a[1..] + b;
      RunsJoin(Step(s, a[0]), a[1..], b);
    }
  }

  lemma {:induction false} ScriptIsRun(s: State, script: Script)
    ensures CanRun(s, ActsOf(script)) && Reached(s, ActsOf(script)) == Perform(s, script)
    ensures ResumedIn(s, ActsOf(script)) == []
    decreases script
  {
    hide Apply;
    if script.Do? {
      var acts := ActsOf(script);
      assert acts[1..] == ActsOf(script.next);
      ScriptIsRun(Apply(s, script.effect), script.next);
    }
  }

  lemma {:induction false} NoResume(s: State, actions: seq<Action>)
    requires CanRun(s, actions) && forall a :: a in actions ==> !a.Resume?
    ensures ResumedIn(s, actions) == []
    decreases |actions|
  {
    hide Step, Enabled;
    if actions != [] {
      assert actions[0] in actions;
      NoResume(Step(s, actions[0]), actions[1..]);
    }
  }

  /** A turn is a run: the first ready task is resumed, does what it does, and ends the turn. */
  lemma TurnIsRun(s: State, turn: Turn) returns (actions: seq<Action>)
    requires s.running == None && s.ready != [] && GoodTurn(turn)
    ensures CanRun(s, actions) && Reached(s, actions) == OneTurn(s, turn)
    ensures ResumedIn(s, actions) == [s.ready[0]]
  {
    hide Apply, Perform;
    var s1 := Step(s, Resume);
    assert [Resume][1..] == [] && Reached(s, [Resume]) == s1 && ResumedIn(s, [Resume]) == [s.ready[0]];
    if !Busy(s1) {
      var die := [Die(turn.star, turn.named)];
      assert die[1..] == [] && Reached(s1, die) == Step(s1, die[0]);
      NoResume(s1, die);
      RunsJoin(s, [Resume], die);
      actions := [Resume] + die;
    } else {
      TurnRuns(s1, turn);
      ScriptIsRun(s1, turn.does);
      var s2 := Perform(s1, turn.does);
      var acts, end := ActsOf(turn.does), EndActions(s2, turn);
      NoResume(s2, end);
      RunsJoin(s1, acts, end);
      RunsJoin(s, [Resume], acts + end);
      actions := [Resume] + (acts + end);
    }
  }

  /** A pass of step resumes a task for each turn, until none is ready. */
  lemma {:induction false} TurnsAreRuns(s: State, turns: seq<Turn>) returns (actions: seq<Action>)
    requires s.running == None && forall t :: t in turns ==> GoodTurn(t)
    ensures CanRun(s, actions) && Reached(s, actions) == Turns(s, turns)
    ensures |ResumedIn(s, actions)| == |turns| || (|ResumedIn(s, actions)| < |turns| && Turns(s, turns).ready == [])
    decreases |turns|
  {
    hide OneTurn;
    if turns == [] || s.ready == [] {
      actions := [];
    } else {
      var first := TurnIsRun(s, turns[0]);
      IdleAfter(s, turns[0]);
      var rest := TurnsAreRuns(OneTurn(s, turns[0]), turns[1..]);
      RunsJoin(s, first, rest);
      actions := first + rest;
    }
  }

  lemma IdleAfter(s: State, turn: Turn)
    requires s.running == None && s.ready != [] && GoodTurn(turn)
    ensures OneTurn(s, turn).running == None
  {
  }

  /** One cell of a queue is dropped by gc, or passed. */
  lemma KeepOrDrop(s: State, q: seq<CellId>, i: nat)
    requires i < |q|
    ensures var rest := q[..i] + q[i + 1..];
      if Collectable(s, q[i]) then rest[..i] + Kept(s, rest[i..]) == q[..i] + Kept(s, q[i..])
      else q[..i + 1] + Kept(s, q[i + 1..]) == q[..i] + Kept(s, q[i..])
  {
    var rest := q[..i] + q[i + 1..];
    assert q[i..][0] == q[i] && q[i..][1..] == q[i + 1..] == rest[i..] && rest[..i] == q[..i];
    assert q[..i + 1] == q[..i] + [q[i]];
    Assoc(q[..i], [q[i]], Kept(s, q[i + 1..]));
  }

  lemma NothingKept(s: State, q: seq<CellId>)
    ensures q[..|q|] + Kept(s, q[|q|..]) == q
  {
  }

  /** The place of the timeouts comes first. */
  lemma Timed(w: Table, e: Emitter, entries: seq<Entry>, c: CellId)
    ensures var timed := if Delays(entries) > 0 then Appended(w, Place(e, TIMEOUT), c) else w;
      AppendedAll(w, Places(e, entries), c) ==
      if Delays(entries) <= 1 then AppendedAll(timed, NamedPlaces(e, entries), c) else timed
  {
    hide Appended;
    var rest := if Delays(entries) == 1 then NamedPlaces(e, entries) else [];
    assert ([Place(e, TIMEOUT)] + rest)[1..] == rest;
  }

  class Tasks {
    var ready: seq<Wake>
    var waiting: Table
    var cells: seq<Cell>
    var running: Option<Task>
    var stuck: bool
    var tasks: nat
    var dead: set<Task>
    var processing: bool
    ghost var log: seq<CellId>
    ghost var spares: nat

    ghost function Now(): State
      reads this
    {
      State(ready, waiting, cells, running, stuck, tasks, dead, processing, log, spares)
    }

    constructor ()
      ensures Now() == INITIAL && fresh(this)
      ensures ready == [] && waiting == map[] && cells == [] && running == None && !stuck && tasks == 0 && dead == {} && !processing
    {
      ready, waiting, cells, running, stuck, tasks, dead := [], map[], [], None, false, 0, {};
      processing, log, spares := false, [], 0;
    }

    /** sched.run */
    method Run() returns (t: Task)
      modifies this
      ensures t == old(tasks) && Now() == Apply(old(Now()), Spawn)
    {
      t := tasks;
      tasks := tasks + 1;
      ready := ready + [Starts(t)];
    }

    /** runcell, for a cell of a queue taken out of p; rest is what remains of it. */
    method RunCell(c: CellId, p: Place, ev: Event, woken: seq<Wake>, runs: Scripts, ghost rest: seq<CellId>)
      returns (woken': seq<Wake>, runs': Scripts)
      modifies this
      ensures RunQueue(old(Now()), p, ev, [c] + rest, woken, runs) == RunQueue(Now(), p, ev, rest, woken', runs')
      ensures runs' == runs || runs' < runs
      decreases runs, 0, 1
    {
      assert ([c] + rest)[1..] == rest;
      woken', runs' := woken, runs;
      if c >= |cells| { return; }
      match cells[c] {
        case Empty =>
        case Waiter(task, multi, _) =>
          woken' := woken + [Woken(task, if multi then Some(p.emitter) else None, ev)];
          cells := cells[c := Empty];
        case Hook(_, _) =>
          log := log + [c];
          var ends := Ending.Returns;
          if runs.Next? {
            Exec(runs.body);
            ends, runs' := runs.ends, runs.rest;
          }
          var reattach := !(c < |cells| && cells[c].Hook? && cells[c].once);
          if ends.KillsItself? { reattach := false; }
          if reattach {
            waiting := Appended(waiting, p, c);
          } else if c < |cells| {
            cells := cells[c := Empty];
          }
      }
    }

    /** parse_queue */
    method ParseQueue(p: Place, ev: Event, woken: seq<Wake>, runs: Scripts) returns (woken': seq<Wake>)
      modifies this
      ensures Pass(Now(), woken') == Parse(old(Now()), p, ev, woken, runs)
      decreases runs, 1, 0
    {
      if p.event !in RowsOf(waiting, p.emitter) { return woken; }
      var q := Queue(waiting, p);
      waiting := Put(waiting, p, []);
      woken' := woken;
      var left := runs;
      ghost var total := RunQueue(Now(), p, ev, q, woken, runs);
      for i := 0 to |q|
        invariant RunQueue(Now(), p, ev, q[i..], woken', left) == total
        invariant left == runs || left < runs
      {
        assert q[i..] == [q[i]] + q[i + 1..];
        woken', left := RunCell(q[i], p, ev, woken', left, q[i + 1..]);
      }
      waiting := Tidied(waiting, p);
    }

    /** sched.signal */
    method Signal(e: Emitter, ev: Event, star: Scripts, named: Scripts)
      modifies this
      ensures Now() == Apply(old(Now()), Emit(e, ev, star, named))
      decreases Emit(e, ev, star, named), 0, 0
    {
      if e !in waiting { return; }
      var was := processing;
      processing := true;
      var woken := ParseQueue(Place(e, STAR), ev, [], star);
      woken := ParseQueue(Place(e, ev), ev, woken, named);
      processing := was;
      ready := ready + woken;
    }

    method Do(effect: Effect)
      modifies this
      ensures Now() == Apply(old(Now()), effect)
      decreases effect, 1, 0
    {
      match effect {
        case Spawn => var t := Run();
        case AddHook(e, entries, once) => var c, ok := SigHook(e, entries, once);
        case KillHook(c) => Kill(c);
        case Collect => Gc();
        case Emit(e, ev, star, named) => Signal(e, ev, star, named);
        case LateWait(es, entries, multi) => LateWait(es, entries, multi);
        case LateYield => LateYield();
      }
    }

    method Exec(script: Script)
      modifies this
      ensures Now() == Perform(old(Now()), script)
      decreases script, 2, 0
    {
      match script {
        case Done =>
        case Do(effect, next) =>
          Do(effect);
          Exec(next);
      }
    }

    /** register, step 2: the timeouts; false stands for the error about several of them. */
    method RegisterTimeouts(c: CellId, e: Emitter, entries: seq<Entry>) returns (ok: bool)
      modifies this`waiting
      ensures waiting == if Delays(entries) > 0 then Appended(old(waiting), Place(e, TIMEOUT), c) else old(waiting)
      ensures ok == (Delays(entries) <= 1)
    {
      hide Appended;
      ghost var base := waiting;
      var hasTimeout := false;
      assert entries[0..] == entries;
      for i := 0 to |entries|
        invariant waiting == if hasTimeout then Appended(base, Place(e, TIMEOUT), c) else base
        invariant Delays(entries) == One(hasTimeout) + Delays(entries[i..])
      {
        assert entries[i..][1..] == entries[i + 1..];
        if entries[i].After? {
          if hasTimeout { return false; }
          waiting := Appended(waiting, Place(e, TIMEOUT), c);
          hasTimeout := true;
        }
      }
      return true;
    }

    /** register, step 3: the other events. */
    method RegisterNamed(c: CellId, e: Emitter, entries: seq<Entry>)
      modifies this`waiting
      ensures waiting == AppendedAll(old(waiting), NamedPlaces(e, entries), c)
    {
      hide Appended;
      ghost var total := AppendedAll(waiting, NamedPlaces(e, entries), c);
      assert entries[0..] == entries;
      for i := 0 to |entries|
        invariant total == AppendedAll(waiting, NamedPlaces(e, entries[i..]), c)
      {
        var entry := entries[i];
        assert entries[i..][1..] == entries[i + 1..];
        if entry.Named? {
          assert NamedPlaces(e, entries[i..])[1..] == NamedPlaces(e, entries[i + 1..]);
          waiting := Appended(waiting, Place(e, entry.event), c);
        } else {
          assert NamedPlaces(e, entries[i..]) == NamedPlaces(e, entries[i + 1..]);
        }
      }
    }

    /** register */
    method Register(c: CellId, e: Emitter, entries: seq<Entry>) returns (ok: bool)
      modifies this`waiting
      ensures waiting == Registered(old(waiting), e, entries, c)
      ensures ok == (Delays(entries) <= 1)
    {
      hide Appended;
      waiting := Opened(waiting, e);
      ghost var base := waiting;
      ok := RegisterTimeouts(c, e, entries);
      Timed(base, e, entries, c);
      if ok {
        RegisterNamed(c, e, entries);
      }
    }

    /** sched.sigHook, and sched.sigOnce when once is set. */
    method SigHook(e: Emitter, entries: seq<Entry>, once: bool) returns (c: CellId, ok: bool)
      modifies this
      ensures c == |old(cells)| && Now() == Apply(old(Now()), AddHook(e, entries, once)) && ok == (Delays(entries) <= 1)
    {
      c := |cells|;
      cells := cells + [Hook(once, AllPlaces([e], entries))];
      ok := Register(c, e, entries);
      assert RegisteredAll(old(waiting), [e], entries, c) == waiting by { assert [e][1..] == []; }
    }

    /** sched.kill, for a hook. */
    method Kill(c: CellId)
      modifies this
      ensures Now() == Apply(old(Now()), KillHook(c))
    {
      if c < |cells| && cells[c].Hook? {
        cells := cells[c := Empty];
      }
    }

    /** What sched.wait with one emitter and sched.multiWait do before they switch. */
    method RegisterRunning(es: seq<Emitter>, entries: seq<Entry>, multi: bool) returns (ok: bool)
      requires running.Some?
      modifies this`cells, this`waiting
      ensures Now() == Waiting(old(Now()), es, entries, multi) && ok == !TwoDelays(es, entries)
    {
      var c := |cells|;
      cells := cells + [Waiter(running.value, multi, AllPlaces(es, entries))];
      ghost var total := RegisteredAll(waiting, es, entries, c);
      ghost var added := Now();
      for i := 0 to |es|
        invariant Now() == added.(waiting := waiting)
        invariant RegisteredAll(waiting, es[i..], entries, c) == total
        invariant i > 0 ==> Delays(entries) <= 1
      {
        ok := Register(c, es[i], entries);
        assert es[i..][1..] == es[i + 1..];
        if !ok { return; }
      }
      ok := true;
    }

    /** sched.wait and sched.multiWait; the error about two delays leaves the cell registered and the task running. */
    method Wait(es: seq<Emitter>, entries: seq<Entry>, multi: bool) returns (ok: bool)
      requires Enabled(Now(), SchedModel.Wait(es, entries, multi))
      modifies this
      ensures Now() == Step(old(Now()), SchedModel.Wait(es, entries, multi)) && ok == !TwoDelays(es, entries)
    {
      ok := RegisterRunning(es, entries, multi);
      if !ok {
        spares := spares + 1;
        return;
      }
      running := None;
    }

    /** The same where the task cannot switch: __tasks.running is nil when the error comes. */
    method LateWait(es: seq<Emitter>, entries: seq<Entry>, multi: bool)
      modifies this
      ensures Now() == WaitedLate(old(Now()), es, entries, multi)
    {
      if running == None || stuck { return; }
      var ok := RegisterRunning(es, entries, multi);
      stuck := ok;
      spares := spares + 1;
    }

    /** sched.wait without arguments. */
    method Yield()
      requires Enabled(Now(), SchedModel.Yield)
      modifies this
      ensures Now() == Step(old(Now()), SchedModel.Yield)
    {
      ready := ready + [Again(running.value)];
      running := None;
    }

    method LateYield()
      modifies this
      ensures Now() == YieldedLate(old(Now()))
    {
      if running == None || stuck { return; }
      ready := ready + [Again(running.value)];
      stuck := true;
      spares := spares + 1;
    }

    /** timeout_callback of a cell registered at e with a delay. */
    method Timeout(c: CellId, e: Emitter, body: Script)
      modifies this
      ensures Now() == Expired(old(Now()), c, e, body)
    {
      if c >= |cells| { return; }
      match cells[c] {
        case Empty =>
        case Waiter(task, multi, _) =>
          ready := ready + [Woken(task, if multi then Some(e) else None, TIMEOUT)];
          cells := cells[c := Empty];
        case Hook(_, _) =>
          log := log + [c];
          Exec(body);
          if c < |cells| { cells := cells[c := Empty]; }
      }
    }

    /** The end of a task, or the discovery that it has ended: its thread signals "die". */
    method Finish(star: Scripts, named: Scripts)
      requires Enabled(Now(), Die(star, named))
      modifies this
      ensures Now() == Step(old(Now()), Die(star, named))
    {
      ghost var s := Now();
      var r := running.value;
      ApplyAges(s.(dead := s.dead + {r}), Emit(Thread(r), DIE, star, named), 0);
      dead := dead + {r};
      Signal(Thread(r), DIE, star, named);
      running := None;
    }

    /** The end of a turn. */
    method EndTurn(turn: Turn)
      requires Busy(Now()) && GoodTurn(turn) && CanRun(Now(), EndActions(Now(), turn))
      modifies this
      ensures Now() == Reached(old(Now()), EndActions(old(Now()), turn))
    {
      ghost var s, actions := Now(), EndActions(Now(), turn);
      assert |actions| == 1 ==> actions[1..] == [] && Reached(s, actions) == Step(s, actions[0]);
      if turn.end.Returns? || stuck {
        Finish(turn.star, turn.named);
        return;
      }
      match turn.end {
        case Returns =>
        case Yields => Yield();
        case Waits(es, entries, multi) =>
          var ok := Wait(es, entries, multi);
          if !ok {
            assert actions[1..] == [Die(turn.star, turn.named)] && actions[1..][1..] == [];
            assert Reached(Now(), actions[1..]) == Step(Now(), Die(turn.star, turn.named));
            Finish(turn.star, turn.named);
          }
      }
    }

    method RunTurn(turn: Turn)
      requires running == None && ready != [] && GoodTurn(turn)
      modifies this
      ensures Now() == OneTurn(old(Now()), turn)
    {
      running, stuck, ready := Some(ready[0].task), false, ready[1..];
      if running.value >= tasks || running.value in dead {
        Finish(turn.star, turn.named);
      } else {
        TurnRuns(Now(), turn);
        Exec(turn.does);
        EndTurn(turn);
      }
    }

    /** sched.step, for as many turns as are given; it does nothing while a task is running. */
    method StepTasks(turns: seq<Turn>)
      requires running.Some? ==> !stuck
      requires forall t :: t in turns ==> GoodTurn(t)
      modifies this
      ensures Now() == if old(running).Some? then old(Now()) else Turns(old(Now()), turns)
    {
      if running.Some? { return; }
      ghost var total := Turns(Now(), turns);
      var i := 0;
      assert turns[0..] == turns;
      while i < |turns| && ready != []
        invariant i <= |turns| && running == None
        invariant Turns(Now(), turns[i..]) == total
      {
        assert turns[i..][0] == turns[i] && turns[i..][1..] == turns[i + 1..];
        RunTurn(turns[i]);
        i := i + 1;
      }
    }

    /** The queue of one event, without the dead cells. */
    method GcQueue(queue: seq<CellId>) returns (kept: seq<CellId>)
      ensures kept == Kept(Now(), queue)
    {
      hide Kept;
      kept := queue;
      var i := 0;
      assert kept[..0] + Kept(Now(), kept[0..]) == Kept(Now(), queue) by { assert kept[0..] == kept; }
      while i < |kept|
        invariant i <= |kept| && Kept(Now(), queue) == kept[..i] + Kept(Now(), kept[i..])
        decreases |kept| - i
      {
        var c := kept[i];
        var drop := c >= |cells| || cells[c].Empty? || (cells[c].Waiter? && cells[c].task in dead);
        assert drop == Collectable(Now(), c);
        KeepOrDrop(Now(), kept, i);
        if drop {
          kept := kept[..i] + kept[i + 1..];
        } else {
          i := i + 1;
        }
      }
      NothingKept(Now(), kept);
    }

    method GcRows(rows: Rows) returns (rows': Rows)
      ensures rows' == KeptRows(Now(), rows)
    {
      rows' := map[];
      var left := rows.Keys;
      while left != {}
        invariant left <= rows.Keys
        invariant forall ev :: ev in rows' <==> ev in rows && ev !in left && (processing || Kept(Now(), rows[ev]) != [])
        invariant forall ev :: ev in rows' ==> rows'[ev] == Kept(Now(), rows[ev])
        decreases left
      {
        var ev :| ev in left;
        var kept := GcQueue(rows[ev]);
        if processing || kept != [] {
          rows' := rows'[ev := kept];
        }
        left := left - {ev};
      }
    }

    /** sched.gc */
    method Gc()
      modifies this
      ensures Now() == Collected(old(Now()))
    {
      var table: Table := map[];
      var left := waiting.Keys;
      while left != {}
        invariant left <= waiting.Keys && Now() == old(Now())
        invariant forall e :: e in table <==>
          e in waiting && e !in left && (processing || KeptRows(Now(), waiting[e]) != map[])
        invariant forall e :: e in table ==> table[e] == KeptRows(Now(), waiting[e])
        decreases left
      {
        var e :| e in left;
        var rows := GcRows(waiting[e]);
        if processing || rows != map[] {
          table := table[e := rows];
        }
        left := left - {e};
      }
      assert table == Collected(Now()).waiting;
      waiting := table;
    }
  }
}
