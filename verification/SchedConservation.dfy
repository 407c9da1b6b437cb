/** Task conservation: no run of the scheduler loses a task or makes two of it. */
module SchedConservation {
  import opened Bytes
  import opened SchedModel

  function One(b: bool): nat { if b then 1 else 0 }

  /** How often t is due in a ready list. */
  function InReady(ready: seq<Wake>, t: Task): nat {
    if ready == [] then 0 else One(ready[0].task == t) + InReady(ready[1..], t)
  }

  predicate Holds(cell: Cell, t: Task) { cell.Waiter? && cell.task == t }

  /** How many cells hold t. */
  function InCells(cells: seq<Cell>, t: Task): nat {
    if cells == [] then 0 else One(Holds(cells[0], t)) + InCells(cells[1..], t)
  }

  predicate Runs(s: State, t: Task) { s.running == Some(t) && Alive(s, t) }

  /** The places where t can be found: the processor, the ready list, the cells. */
  function Copies(s: State, t: Task): nat {
    One(Runs(s, t)) + InReady(s.ready, t) + InCells(s.cells, t)
  }

  /** Copies of t too many. */
  function Excess(s: State, t: Task): int {
    Copies(s, t) - One(Alive(s, t))
  }

  /** Every live task is running, or in the ready list once, or in one cell; no dead one is in any. */
  ghost predicate Conserved(s: State) {
    forall t {:trigger Excess(s, t)} :: Excess(s, t) == 0
  }

  /** Copies of t that failed waits have made from s to s'. */
  function Spares(s: State, s': State, t: Task): int {
    if s.running == Some(t) then s'.spares - s.spares else 0
  }

  /** Only tasks that were started run or are dead. */
  predicate Sane(s: State) {
    (s.running.Some? ==> s.running.value < s.tasks) && forall t :: t in s.dead ==> t < s.tasks
  }

  lemma {:induction false} InReadyAppend(a: seq<Wake>, b: seq<Wake>, t: Task)
    ensures InReady(a + b, t) == InReady(a, t) + InReady(b, t)
  {
    if a == [] {
      assert a + b == b;
    } else {
      assert (a + b)[1..] == a[1..] + b;
      InReadyAppend(a[1..], b, t);
    }
  }

  lemma {:induction false} InCellsAppend(a: seq<Cell>, cell: Cell, t: Task)
    ensures InCells(a + [cell], t) == InCells(a, t) + One(Holds(cell, t))
  {
    if a == [] {
      assert a + [cell] == [cell];
    } else {
      assert (a + [cell])[1..] == a[1..] + [cell];
      InCellsAppend(a[1..], cell, t);
    }
  }

  lemma {:induction false} InCellsUpdate(cells: seq<Cell>, c: CellId, cell: Cell, t: Task)
    requires c < |cells|
    ensures InCells(cells[c := cell], t) == InCells(cells, t) - One(Holds(cells[c], t)) + One(Holds(cell, t))
  {
    if c > 0 {
      assert cells[c := cell][1..] == cells[1..][c - 1 := cell];
      InCellsUpdate(cells[1..], c - 1, cell, t);
    } else {
      assert cells[c := cell][1..] == cells[1..];
    }
  }

  lemma Emptying(s: State, c: CellId, t: Task)
    ensures Excess(Emptied(s, c), t) == Excess(s, t) - One(Holds(CellOf(s, c), t))
  {
    if c < |s.cells| {
      InCellsUpdate(s.cells, c, Empty, t);
    }
  }

  lemma Adding(s: State, cell: Cell, es: seq<Emitter>, entries: seq<Entry>, t: Task)
    ensures Excess(Added(s, cell, es, entries), t) == Excess(s, t) + One(Holds(cell, t))
  {
    InCellsAppend(s.cells, cell, t);
  }

  lemma Readying(s: State, more: seq<Wake>, t: Task)
    ensures Excess(s.(ready := s.ready + more), t) == Excess(s, t) + InReady(more, t)
  {
    InReadyAppend(s.ready, more, t);
  }

  /** The waiting table, the log and the flags do not count. */
  lemma Unrelated(s: State, s': State, t: Task)
    requires s' == s.(waiting := s'.waiting, log := s'.log, processing := s'.processing, stuck := s'.stuck, spares := s'.spares)
    ensures Excess(s', t) == Excess(s, t)
  {
  }

  lemma AfterHookExcess(s: State, p: Place, c: CellId, ends: Ending, t: Task)
    requires CellOf(s, c).Hook? || CellOf(s, c).Empty?
    ensures Excess(AfterHook(s, p, c, ends), t) == Excess(s, t)
  {
    Emptying(s, c, t);
  }

  /** A cell is a hook's, or a task's, or empty, until it is emptied. */
  predicate Aged(s: State, s': State, c: CellId) {
    && s'.dead == s.dead && s'.running == s.running && s.tasks <= s'.tasks && |s.cells| <= |s'.cells|
    && (c < |s.cells| ==> CellOf(s', c) == CellOf(s, c) || CellOf(s', c).Empty?)
    && (s.running == None ==> s'.spares == s.spares)
  }

  /** And a new cell is a hook's. */
  predicate AgedQuietly(s: State, s': State, c: CellId) {
    Aged(s, s', c) && (c >= |s.cells| ==> !CellOf(s', c).Waiter?)
  }

  predicate AgedAs(quiet: bool, s: State, s': State, c: CellId) {
    Aged(s, s', c) && (quiet ==> AgedQuietly(s, s', c) && s'.spares == s.spares)
  }

  lemma {:induction false} RunQueueExcess(s: State, p: Place, ev: Event, q: seq<CellId>, woken: seq<Wake>, runs: Scripts,
                                          t: Task)
    requires Sane(s)
    ensures Sane(RunQueue(s, p, ev, q, woken, runs).state)
    ensures var a := RunQueue(s, p, ev, q, woken, runs);
      Excess(a.state, t) + InReady(a.woken, t) == Excess(s, t) + InReady(woken, t) + Spares(s, a.state, t)
    decreases runs, |q|, 0
  {
    hide Excess, AllQuiet, ScriptQuiet, AgedQuietly, Queue, Put, Appended;
    if q != [] {
      var c := q[0];
      match CellOf(s, c) {
        case Empty => RunQueueExcess(s, p, ev, q[1..], woken, runs, t);
        case Waiter(_, _, _) =>
          var w := WakeFor(CellOf(s, c), p.emitter, ev);
          Emptying(s, c, t);
          InReadyAppend(woken, [w], t);
          RunQueueExcess(Emptied(s, c), p, ev, q[1..], woken + [w], runs, t);
        case Hook(_, _) =>
          var s1 := s.(log := s.log + [c]);
          Unrelated(s, s1, t);
          match runs {
            case NoMore =>
              AfterHookExcess(s1, p, c, Returns, t);
              RunQueueExcess(AfterHook(s1, p, c, Returns), p, ev, q[1..], woken, NoMore, t);
            case Next(body, ends, rest) =>
              HookExcess(s1, p, c, body, ends, t);
              RunQueueExcess(AfterHook(Perform(s1, body), p, c, ends), p, ev, q[1..], woken, rest, t);
          }
      }
    }
  }

  lemma HookExcess(s: State, p: Place, c: CellId, body: Script, ends: Ending, t: Task)
    requires Sane(s) && CellOf(s, c).Hook?
    ensures var s' := AfterHook(Perform(s, body), p, c, ends);
      Sane(s') && s'.running == s.running && Excess(s', t) == Excess(s, t) + Spares(s, s', t)
    decreases body, 0, 5
  {
    hide Excess;
    PerformExcess(s, body, t);
    PerformAges(s, body, c);
    AfterHookExcess(Perform(s, body), p, c, ends, t);
  }

  lemma WaitingLate(s: State, es: seq<Emitter>, entries: seq<Entry>, multi: bool, t: Task)
    ensures var s' := WaitedLate(s, es, entries, multi); Excess(s', t) == Excess(s, t) + Spares(s, s', t)
  {
    hide Excess;
    if s.running.Some? && !s.stuck {
      Adding(s, Waiter(s.running.value, multi, AllPlaces(es, entries)), es, entries, t);
      Unrelated(Waiting(s, es, entries, multi), WaitedLate(s, es, entries, multi), t);
    }
  }

  lemma YieldingLate(s: State, t: Task)
    ensures var s' := YieldedLate(s); Excess(s', t) == Excess(s, t) + Spares(s, s', t)
  {
    if s.running.Some? && !s.stuck {
      InReadyAppend(s.ready, [Again(s.running.value)], t);
    }
  }

  lemma ParseExcess(s: State, p: Place, ev: Event, woken: seq<Wake>, runs: Scripts, t: Task)
    requires Sane(s)
    ensures Sane(Parse(s, p, ev, woken, runs).state)
    ensures var a := Parse(s, p, ev, woken, runs);
      Excess(a.state, t) + InReady(a.woken, t) == Excess(s, t) + InReady(woken, t) + Spares(s, a.state, t)
    decreases runs, |Queue(s.waiting, p)|, 1
  {
    hide Excess;
    if p.event in RowsOf(s.waiting, p.emitter) {
      var s1 := s.(waiting := Put(s.waiting, p, []));
      Unrelated(s, s1, t);
      RunQueueExcess(s1, p, ev, Queue(s.waiting, p), woken, runs, t);
      var a := RunQueue(s1, p, ev, Queue(s.waiting, p), woken, runs);
      Unrelated(a.state, a.state.(waiting := Tidied(a.state.waiting, p)), t);
    }
  }

  lemma ApplyExcess(s: State, effect: Effect, t: Task)
    requires Sane(s)
    ensures Sane(Apply(s, effect))
    ensures Excess(Apply(s, effect), t) == Excess(s, t) + Spares(s, Apply(s, effect), t)
    decreases effect, 0, 3
  {
    match effect {
      case Spawn => InReadyAppend(s.ready, [Starts(s.tasks)], t);
      case AddHook(e, entries, once) => Adding(s, Hook(once, AllPlaces([e], entries)), [e], entries, t);
      case KillHook(c) => Emptying(s, c, t);
      case Collect => Unrelated(s, Collected(s), t);
      case LateWait(es, entries, multi) => WaitingLate(s, es, entries, multi, t);
      case LateYield => YieldingLate(s, t);
      case Emit(e, ev, star, named) =>
        if e in s.waiting {
          EmitExcess(s, e, ev, star, named, t);
        }
    }
  }

  lemma EmitExcess(s: State, e: Emitter, ev: Event, star: Scripts, named: Scripts, t: Task)
    requires e in s.waiting
    requires Sane(s)
    ensures Sane(Apply(s, Emit(e, ev, star, named)))
    ensures Excess(Apply(s, Emit(e, ev, star, named)), t) ==
            Excess(s, t) + Spares(s, Apply(s, Emit(e, ev, star, named)), t)
    decreases Emit(e, ev, star, named), 0, 2
  {
    hide Excess;
    var s1 := s.(processing := true);
    Unrelated(s, s1, t);
    ParseExcess(s1, Place(e, STAR), ev, [], star, t);
    var a := Parse(s1, Place(e, STAR), ev, [], star);
    ParseAges(s1, Place(e, STAR), ev, [], star, 0);
    ParseExcess(a.state, Place(e, ev), ev, a.woken, named, t);
    var b := Parse(a.state, Place(e, ev), ev, a.woken, named);
    Readying(b.state, b.woken, t);
    var s2 := b.state.(ready := b.state.ready + b.woken);
    Unrelated(s2, s2.(processing := s.processing), t);
  }

  lemma {:induction false} PerformExcess(s: State, script: Script, t: Task)
    requires Sane(s)
    ensures Sane(Perform(s, script))
    ensures Excess(Perform(s, script), t) == Excess(s, t) + Spares(s, Perform(s, script), t)
    decreases script, 0, 4
  {
    match script {
      case Done =>
      case Do(effect, next) =>
        ApplyExcess(s, effect, t);
        ApplyAges(s, effect, 0);
        PerformExcess(Apply(s, effect), next, t);
    }
  }

  /* ---- Cells only ever get emptied ---- */

  lemma {:induction false} RunQueueAges(s: State, p: Place, ev: Event, q: seq<CellId>, woken: seq<Wake>, runs: Scripts, c: CellId)
    ensures AgedAs(AllQuiet(runs), s, RunQueue(s, p, ev, q, woken, runs).state, c)
    decreases runs, |q|, 0
  {
    if q != [] {
      match CellOf(s, q[0]) {
        case Empty => RunQueueAges(s, p, ev, q[1..], woken, runs, c);
        case Waiter(_, _, _) =>
          RunQueueAges(Emptied(s, q[0]), p, ev, q[1..], woken + [WakeFor(CellOf(s, q[0]), p.emitter, ev)], runs, c);
        case Hook(_, _) =>
          var s1 := s.(log := s.log + [q[0]]);
          match runs {
            case NoMore => RunQueueAges(AfterHook(s1, p, q[0], Returns), p, ev, q[1..], woken, NoMore, c);
            case Next(body, ends, rest) =>
              PerformAges(s1, body, c);
              RunQueueAges(AfterHook(Perform(s1, body), p, q[0], ends), p, ev, q[1..], woken, rest, c);
          }
      }
    }
  }

  lemma ParseAges(s: State, p: Place, ev: Event, woken: seq<Wake>, runs: Scripts, c: CellId)
    ensures AgedAs(AllQuiet(runs), s, Parse(s, p, ev, woken, runs).state, c)
    decreases runs, |Queue(s.waiting, p)|, 1
  {
    if p.event in RowsOf(s.waiting, p.emitter) {
      RunQueueAges(s.(waiting := Put(s.waiting, p, [])), p, ev, Queue(s.waiting, p), woken, runs, c);
    }
  }

  lemma ApplyAges(s: State, effect: Effect, c: CellId)
    ensures AgedAs(Quiet(effect), s, Apply(s, effect), c)
    decreases effect, 0, 3
  {
    if effect.Emit? && effect.emitter in s.waiting {
      var s1 := s.(processing := true);
      ParseAges(s1, Place(effect.emitter, STAR), effect.event, [], effect.star, c);
      var a := Parse(s1, Place(effect.emitter, STAR), effect.event, [], effect.star);
      ParseAges(a.state, Place(effect.emitter, effect.event), effect.event, a.woken, effect.named, c);
    }
  }

  lemma {:induction false} PerformAges(s: State, script: Script, c: CellId)
    ensures AgedAs(ScriptQuiet(script), s, Perform(s, script), c)
    decreases script, 0, 4
  {
    match script {
      case Done =>
      case Do(effect, next) =>
        ApplyAges(s, effect, c);
        PerformAges(Apply(s, effect), next, c);
    }
  }

  /* ---- Runs ---- */

  /** A wait with two delays gives up after the cell has been registered. */
  predicate OneDelay(a: Action) {
    a.Wait? ==> !TwoDelays(a.emitters, a.entries)
  }

  predicate QuietAction(a: Action) {
    match a
    case Act(effect) => Quiet(effect)
    case Die(star, named) => AllQuiet(star) && AllQuiet(named)
    case Expire(_, _, body) => ScriptQuiet(body)
    case _ => true
  }

  /** No wait fails too late: none has two delays, and no hook waits. */
  predicate InTime(a: Action) {
    OneDelay(a) && QuietAction(a)
  }

  lemma {:induction false} CellCounts(cells: seq<Cell>, c: CellId)
    requires c < |cells| && cells[c].Waiter?
    ensures InCells(cells, cells[c].task) > 0
  {
    if c > 0 {
      CellCounts(cells[1..], c - 1);
    }
  }

  lemma FirstIsAlive(s: State)
    requires Conserved(s) && s.ready != []
    ensures Alive(s, s.ready[0].task)
  {
    var t := s.ready[0].task;
    assert Excess(s, t) == 0;
  }

  /** Each action moves a task from one place to another; only a wait that fails too late leaves one where it was. */
  lemma StepExcess(s: State, a: Action, t: Task)
    requires Sane(s) && Conserved(s) && Enabled(s, a)
    ensures Sane(Step(s, a))
    ensures Excess(Step(s, a), t) == Spares(s, Step(s, a), t)
    ensures s.running == None ==> Step(s, a).spares == s.spares
  {
    assert Excess(s, t) == 0;
    match a {
      case Resume => FirstIsAlive(s);
      case Act(effect) =>
        ApplyExcess(s, effect, t);
        ApplyAges(s, effect, 0);
      case Yield => InReadyAppend(s.ready, [Again(s.running.value)], t);
      case Wait(es, entries, multi) =>
        Adding(s, Waiter(s.running.value, multi, AllPlaces(es, entries)), es, entries, t);
      case Die(star, named) => DieExcess(s, star, named, t);
      case Expire(c, e, body) => ExpireExcess(s, c, e, body, t);
    }
  }

  lemma DieExcess(s: State, star: Scripts, named: Scripts, t: Task)
    requires Sane(s) && Conserved(s) && Enabled(s, Die(star, named))
    ensures var s' := Step(s, Die(star, named)); Sane(s') && Excess(s', t) == Spares(s, s', t)
  {
    var r := s.running.value;
    assert Excess(s, r) == 0 && Excess(s, t) == 0;
    var s1 := s.(dead := s.dead + {r});
    ApplyExcess(s1, Emit(Thread(r), DIE, star, named), t);
    ApplyAges(s1, Emit(Thread(r), DIE, star, named), 0);
  }

  lemma ExpireExcess(s: State, c: CellId, e: Emitter, body: Script, t: Task)
    requires Sane(s)
    ensures var s' := Expired(s, c, e, body);
      && Sane(s') && Excess(s', t) == Excess(s, t) + Spares(s, s', t)
      && (s.running == None || ScriptQuiet(body) ==> s'.spares == s.spares)
  {
    hide Excess;
    match CellOf(s, c) {
      case Empty =>
      case Waiter(_, _, _) =>
        Emptying(s, c, t);
        Readying(Emptied(s, c), [WakeFor(CellOf(s, c), e, TIMEOUT)], t);
      case Hook(_, _) =>
        var s1 := s.(log := s.log + [c]);
        Unrelated(s, s1, t);
        PerformExcess(s1, body, t);
        PerformAges(s1, body, c);
        Emptying(Perform(s1, body), c, t);
    }
  }

  /** Conservation is kept by an action exactly when no wait fails too late in it. That is so when no hook waits, unless
      the action is itself a wait with two delays. */
  lemma StepConservesIff(s: State, a: Action)
    requires Sane(s) && Conserved(s) && Enabled(s, a)
    ensures Sane(Step(s, a))
    ensures Conserved(Step(s, a)) <==> Step(s, a).spares == s.spares
    ensures QuietAction(a) ==> (Conserved(Step(s, a)) <==> OneDelay(a))
  {
    forall t: Task ensures Excess(Step(s, a), t) == Spares(s, Step(s, a), t) {
      StepExcess(s, a, t);
    }
    StepExcess(s, a, 0);
    if Step(s, a).spares != s.spares {
      assert Excess(Step(s, a), s.running.value) != 0;
    }
    if QuietAction(a) {
      QuietSpares(s, a);
    }
  }

  lemma QuietSpares(s: State, a: Action)
    requires Sane(s) && Enabled(s, a) && QuietAction(a)
    ensures Step(s, a).spares == s.spares <==> OneDelay(a)
  {
    match a {
      case Act(effect) => ApplyAges(s, effect, 0);
      case Die(star, named) =>
        var s1 := s.(dead := s.dead + {s.running.value});
        ApplyAges(s1, Emit(Thread(s.running.value), DIE, star, named), 0);
      case Expire(c, e, body) => ExpireExcess(s, c, e, body, 0);
      case _ =>
    }
  }

  predicate AllInTime(actions: seq<Action>) {
    forall a :: a in actions ==> InTime(a)
  }

  lemma {:induction false} RunConserves(s: State, actions: seq<Action>)
    requires Sane(s) && Conserved(s) && CanRun(s, actions) && AllInTime(actions)
    ensures Sane(Reached(s, actions)) && Conserved(Reached(s, actions))
    decreases |actions|
  {
    if actions != [] {
      assert InTime(actions[0]);
      StepConservesIff(s, actions[0]);
      RunConserves(Step(s, actions[0]), actions[1..]);
    }
  }

  lemma AtFirst()
    ensures Sane(INITIAL) && Conserved(INITIAL)
  {
  }

  /** How often task t is resumed, and how often it waits, in a run. */
  function Resumes(s: State, actions: seq<Action>, t: Task): nat
    requires CanRun(s, actions)
    decreases |actions|
  {
    if actions == [] then 0
    else One(actions[0].Resume? && s.ready[0].task == t) + Resumes(Step(s, actions[0]), actions[1..], t)
  }

  function Waits(s: State, actions: seq<Action>, t: Task): nat
    requires CanRun(s, actions)
    decreases |actions|
  {
    if actions == [] then 0
    else One((actions[0].Wait? || actions[0].Yield?) && s.running == Some(t)) + Waits(Step(s, actions[0]), actions[1..], t)
  }

  /** On the processor, or past it. */
  predicate Went(s: State, t: Task) { Runs(s, t) || t in s.dead }

  /** Each wait returns exactly once, however many of its events and timeouts come: the task is resumed once for its
      start and once for each of its waits, except the one it is still in. */
  lemma {:induction false} WaitsReturnOnce(s: State, actions: seq<Action>, t: Task)
    requires Sane(s) && Conserved(s) && CanRun(s, actions) && AllInTime(actions)
    ensures Resumes(s, actions, t) + One(Went(s, t)) == Waits(s, actions, t) + One(Went(Reached(s, actions), t))
    decreases |actions|
  {
    if actions != [] {
      var a, s' := actions[0], Step(s, actions[0]);
      assert InTime(a);
      StepConservesIff(s, a);
      WaitsReturnOnce(s', actions[1..], t);
      StepWent(s, a, t);
    }
  }

  lemma StepWent(s: State, a: Action, t: Task)
    requires Sane(s) && Conserved(s) && Enabled(s, a) && InTime(a)
    ensures One(a.Resume? && s.ready[0].task == t) + One(Went(s, t)) ==
            One((a.Wait? || a.Yield?) && s.running == Some(t)) + One(Went(Step(s, a), t))
  {
    assert Excess(s, t) == 0;
    match a {
      case Resume => FirstIsAlive(s);
      case Act(effect) => ApplyAges(s, effect, 0); ApplyExcess(s, effect, t);
      case Yield =>
      case Wait(es, entries, multi) =>
      case Die(star, named) =>
        var s1 := s.(dead := s.dead + {s.running.value});
        ApplyAges(s1, Emit(Thread(s.running.value), DIE, star, named), 0);
      case Expire(c, e, body) =>
        ExpireExcess(s, c, e, body, t);
        if CellOf(s, c).Hook? {
          PerformAges(s.(log := s.log + [c]), body, 0);
        }
    }
  }

  /* ---- Where conservation is lost ---- */

  /** One task, on the processor. */
  lemma Started() returns (s: State)
    ensures CanRun(INITIAL, [Act(Spawn), Resume]) && s == Reached(INITIAL, [Act(Spawn), Resume])
    ensures s == INITIAL.(tasks := 1, running := Some(0)) && Conserved(s) && Sane(s)
  {
    var s1 := Step(INITIAL, Act(Spawn));
    assert s1 == INITIAL.(ready := [Starts(0)], tasks := 1);
    s := Step(s1, Resume);
    assert [Act(Spawn), Resume][1..] == [Resume] && [Resume][1..] == [];
    assert Reached(s1, [Resume]) == Reached(s, []) == s;
    AtFirst();
    StepConservesIff(INITIAL, Act(Spawn));
    StepConservesIff(s1, Resume);
  }

  /** The task waits with two delays. */
  lemma TwoDelaysBreak()
    ensures var a := Wait([Object(0)], [After(1), After(2)], false);
      exists s :: Sane(s) && Conserved(s) && Enabled(s, a) && !Conserved(Step(s, a))
  {
    var s := Started();
    StepConservesIff(s, Wait([Object(0)], [After(1), After(2)], false));
    assert [After(1), After(2)][1..] == [After(2)];
  }

  /** The task signals an event to whose hook c it is the turn, and that hook waits: the task goes on, and is registered
      as well. */
  lemma HookWaitBreaks(s: State, p: Place, c: CellId, es: seq<Emitter>, entries: seq<Entry>)
    requires Sane(s) && Conserved(s) && Busy(s) && !s.stuck
    requires CellOf(s, c).Hook? && Queue(s.waiting, p) == [c] && STAR !in RowsOf(s.waiting, p.emitter)
    ensures var runs := Next(Do(LateWait(es, entries, false), Done), Fails, NoMore);
      !Conserved(Step(s, Act(Emit(p.emitter, p.event, NoMore, runs))))
  {
    var body := Do(LateWait(es, entries, false), Done);
    var runs := Next(body, Fails, NoMore);
    var t := s.(processing := true);
    assert Parse(t, Place(p.emitter, STAR), p.event, [], NoMore) == Pass(t, []);
    var t1 := t.(waiting := Put(t.waiting, p, []));
    HookWaits(t1, p, c, es, entries);
    var b := Parse(t, p, p.event, [], runs);
    assert b.state.spares == s.spares + 1;
    assert Place(p.emitter, p.event) == p && p.emitter in s.waiting;
    assert Apply(s, Emit(p.emitter, p.event, NoMore, runs)).spares == b.state.spares;
    StepConservesIff(s, Act(Emit(p.emitter, p.event, NoMore, runs)));
  }

  lemma HookWaits(s: State, p: Place, c: CellId, es: seq<Emitter>, entries: seq<Entry>)
    requires s.running.Some? && !s.stuck && CellOf(s, c).Hook?
    ensures var runs := Next(Do(LateWait(es, entries, false), Done), Fails, NoMore);
      RunQueue(s, p, p.event, [c], [], runs).state.spares == s.spares + 1
  {
    hide Added, Places;
    var body := Do(LateWait(es, entries, false), Done);
    var s1 := s.(log := s.log + [c]);
    var s2 := Perform(s1, body);
    var wait := LateWait(es, entries, false);
    assert Apply(s1, wait) == WaitedLate(s1, es, entries, false);
    assert s2 == Perform(Apply(s1, wait), Done) == Apply(s1, wait);
    var s3 := AfterHook(s2, p, c, Fails);
    assert [c][1..] == [];
    assert RunQueue(s, p, p.event, [c], [], Next(body, Fails, NoMore)) == RunQueue(s3, p, p.event, [], [], NoMore);
  }

  lemma OneEvent(w: Table, e: Emitter, ev: Event, c: CellId)
    ensures AllPlaces([e], [Named(ev)]) == [Place(e, ev)]
    ensures RegisteredAll(w, [e], [Named(ev)], c) == Appended(Opened(w, e), Place(e, ev), c)
  {
    var p := Place(e, ev);
    assert [e][1..] == [] && [Named(ev)][1..] == [];
    assert NamedPlaces(e, [Named(ev)]) == [p] && Delays([Named(ev)]) == 0;
    assert Places(e, [Named(ev)]) == [p];
    assert AppendedAll(Opened(w, e), [p], c) == AppendedAll(Appended(Opened(w, e), p, c), [], c);
  }

  /** Such a state is reached at once: a task starts, and registers the hook. */
  lemma HookRegistered() returns (s: State)
    ensures var run := [Act(Spawn), Resume, Act(AddHook(Object(0), [Named("a")], false))];
      CanRun(INITIAL, run) && s == Reached(INITIAL, run)
    ensures Sane(s) && Conserved(s) && Busy(s) && !s.stuck && CellOf(s, 0).Hook?
    ensures Queue(s.waiting, Place(Object(0), "a")) == [0] && STAR !in RowsOf(s.waiting, Object(0))
  {
    var t := Started();
    var e, p, a := Object(0), Place(Object(0), "a"), Act(AddHook(Object(0), [Named("a")], false));
    s := Step(t, a);
    StepConservesIff(t, a);
    var run := [Act(Spawn), Resume, a];
    assert run[1..] == [Resume, a] && run[1..][1..] == [a] && run[1..][1..][1..] == [];
    var t1 := Step(INITIAL, Act(Spawn));
    assert [Act(Spawn), Resume][1..] == [Resume] && [Resume][1..] == [];
    assert t == Reached(t1, [Resume]) == Reached(Step(t1, Resume), []) == Step(t1, Resume);
    assert Reached(t, [a]) == Reached(s, []) == s;
    OneEvent(map[], e, "a", 0);
  }
}
