/** Which waits return: those that name an emitter and an event. */
module SchedWaits {
  import opened Bytes
  import opened SchedModel
  import opened SchedConservation
  import opened SchedQueues

  /* ---- Nothing wakes a task that is registered nowhere ---- */

  lemma {:induction false} NothingTouches(effect: Effect)
    ensures !Touches(effect, {})
    decreases effect
  {
    if effect.Emit? {
      NoneTouches(effect.star);
      NoneTouches(effect.named);
    }
  }

  lemma {:induction false} NoScriptTouches(script: Script)
    ensures !ScriptTouches(script, {})
    decreases script
  {
    if script.Do? {
      NothingTouches(script.effect);
      NoScriptTouches(script.next);
    }
  }

  lemma {:induction false} NoneTouches(runs: Scripts)
    ensures !AnyTouches(runs, {})
    decreases runs
  {
    if runs.Next? {
      NoScriptTouches(runs.body);
      NoneTouches(runs.rest);
    }
  }

  lemma NoActionTouches(s: State, a: Action, c: CellId)
    requires Enabled(s, a) && IsWaiter(s, c) && CellOf(s, c).at == []
    ensures !ActionTouches(s, a, c, {})
  {
    match a {
      case Act(effect) => NothingTouches(effect);
      case Die(star, named) => NothingTouches(Emit(Thread(s.running.value), DIE, star, named));
      case Expire(_, _, body) => NoScriptTouches(body);
      case _ =>
    }
  }

  lemma {:induction false} NeverReturns(s: State, actions: seq<Action>, c: CellId)
    requires Sane(s) && Conserved(s) && AllLocated(s) && CanRun(s, actions) && AllInTime(actions)
    requires IsWaiter(s, c) && CellOf(s, c).at == []
    ensures CellOf(Reached(s, actions), c) == CellOf(s, c) && Resumes(s, actions, CellOf(s, c).task) == 0
    decreases |actions|
  {
    hide Located, Step;
    if actions != [] {
      var a, t := actions[0], CellOf(s, c).task;
      assert InTime(a);
      Asleep(s, c);
      assert PlacesOf(s, c) == {};
      assert PlacesOf(s, c) == {};
      assert PlacesOf(s, c) == {};
      assert PlacesOf(s, c) == {};
      assert PlacesOf(s, c) == {};
      assert PlacesOf(s, c) == {};
      assert PlacesOf(s, c) == {};
      assert PlacesOf(s, c) == {};
      assert PlacesOf(s, c) == {};
      NoActionTouches(s, a, c);
      StepSpares(s, a, c, {});
      StepKeepsTasks(s, a);
      NeverReturns(Step(s, a), actions[1..], c);
      assert Excess(s, t) == 0;
      CellCounts(s.cells, c);
    }
  }

  /* ---- A task in the ready list can be resumed ---- */

  /** How many tasks are before t in the ready list. */
  function Before(ready: seq<Wake>, t: Task): nat
    requires InReady(ready, t) > 0
  {
    if ready[0].task == t then 0 else 1 + Before(ready[1..], t)
  }

  lemma {:induction false} BeforeAppend(ready: seq<Wake>, t: Task, w: Wake)
    requires InReady(ready, t) > 0
    ensures InReady(ready + [w], t) > 0 && Before(ready + [w], t) == Before(ready, t)
  {
    assert (ready + [w])[1..] == ready[1..] + [w];
    if ready[0].task != t {
      BeforeAppend(ready[1..], t, w);
    }
  }

  /** Those before it are resumed, and go to the end of the list. */
  lemma {:induction false} GetsResumed(s: State, t: Task) returns (actions: seq<Action>)
    requires Sane(s) && Conserved(s) && s.running == None && InReady(s.ready, t) > 0
    ensures CanRun(s, actions) && AllInTime(actions) && Resumes(s, actions, t) > 0
    decreases Before(s.ready, t)
  {
    FirstIsAlive(s);
    StepConservesIff(s, Resume);
    var s1 := Step(s, Resume);
    if s.ready[0].task == t {
      actions := [Resume];
      assert CanRun(s1, []) && actions[1..] == [];
    } else {
      var s2 := Step(s1, Yield);
      StepConservesIff(s1, Yield);
      BeforeAppend(s.ready[1..], t, Again(s.ready[0].task));
      var rest := GetsResumed(s2, t);
      actions := [Resume, Yield] + rest;
      assert actions[1..] == [Yield] + rest && actions[1..][1..] == rest;
      assert Resumes(s1, [Yield] + rest, t) == Resumes(s2, rest, t);
    }
  }

  /* ---- When a wait returns ---- */

  /** Somewhere to register: an emitter and an event, or a delay. */
  lemma PlacesIff(es: seq<Emitter>, entries: seq<Entry>)
    requires !TwoDelays(es, entries)
    ensures AllPlaces(es, entries) != [] <==> es != [] && entries != []
  {
    if es != [] {
      if entries == [] {
        NoPlaces(es);
      } else {
        FirstPlace(es[0], entries);
      }
    }
  }

  lemma {:induction false} NoPlaces(es: seq<Emitter>)
    ensures AllPlaces(es, []) == []
  {
    if es != [] {
      NoPlaces(es[1..]);
    }
  }

  lemma FirstPlace(e: Emitter, entries: seq<Entry>)
    requires entries != []
    ensures Places(e, entries) != []
  {
    if entries[0].Named? {
      assert NamedPlaces(e, entries)[0] == Place(e, entries[0].event);
    }
  }

  ghost predicate CanReturn(s: State, t: Task) {
    exists actions {:trigger CanRun(s, actions)} ::
      CanRun(s, actions) && AllInTime(actions) && Resumes(s, actions, t) > 0
  }

  /** The documentation says that a wait that lists no emitter or no event puts the task back at the end of the queue,
      as one without arguments does. A wait can return, by some run, exactly when it lists both. */
  lemma WaitReturnsIff(s: State, es: seq<Emitter>, entries: seq<Entry>, multi: bool)
    requires Sane(s) && Conserved(s) && AllLocated(s)
    requires Enabled(s, Wait(es, entries, multi)) && !TwoDelays(es, entries)
    ensures CanReturn(Step(s, Wait(es, entries, multi)), s.running.value) <==> es != [] && entries != []
  {
    var a, c, t := Wait(es, entries, multi), |s.cells|, s.running.value;
    var s' := Step(s, a);
    StepKeepsTasks(s, a);
    PlacesIff(es, entries);
    assert CellOf(s', c) == Waiter(t, multi, AllPlaces(es, entries));
    if AllPlaces(es, entries) == [] {
      forall actions | CanRun(s', actions) && AllInTime(actions) ensures Resumes(s', actions, t) == 0 {
        NeverReturns(s', actions, c);
      }
    } else {
      var actions := Woken(s', c);
      assert CanRun(s', actions);
    }
  }

  lemma Woken(s: State, c: CellId) returns (actions: seq<Action>)
    requires Sane(s) && Conserved(s) && AllLocated(s) && s.running == None
    requires IsWaiter(s, c) && CellOf(s, c).at != []
    ensures CanRun(s, actions) && AllInTime(actions) && Resumes(s, actions, CellOf(s, c).task) > 0
  {
    hide Apply;
    var p, t := CellOf(s, c).at[0], CellOf(s, c).task;
    var emit := Emit(p.emitter, p.event, NoMore, NoMore);
    var s1 := Step(s, Act(emit));
    assert Place(p.emitter, p.event) == p;
    SignalWakes(s, p.emitter, p.event, NoMore, NoMore, c);
    StepConservesIff(s, Act(emit));
    ApplyAges(s, emit, c);
    var rest := GetsResumed(s1, t);
    actions := [Act(emit)] + rest;
    assert actions[1..] == rest;
  }

  /** The first task started waits for no event of an emitter. */
  lemma EmptyWaitSleeps()
    ensures exists s :: Sane(s) && Conserved(s) && AllLocated(s) && Enabled(s, Wait([Object(0)], [], false)) &&
              !CanReturn(Step(s, Wait([Object(0)], [], false)), s.running.value)
  {
    var s := Started();
    WaitReturnsIff(s, [Object(0)], [], false);
  }
}
