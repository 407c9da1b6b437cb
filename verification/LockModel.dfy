/** Locks (sched/lock.lua) as a state machine over acquire, release and the death of tasks. */
module LockModel {
  import opened Bytes

  type Task = nat
  type Id = nat

  /** inside: the tasks whose acquire has returned and who have not released the lock or died since. */
  datatype Lock = Lock(owner: Option<Task>, waiting: set<Task>, inside: set<Task>)

  const FREE := Lock(None, {}, {})

  /** hooks: the locks to release when a task dies; asleep: tasks blocked in acquire; woken: tasks signalled by a
      release that have not run since. */
  datatype State = State(
    locks: map<Id, Lock>,
    hooks: map<Task, set<Id>>,
    asleep: map<Task, Id>,
    woken: map<Task, Id>,
    dead: set<Task>)

  const INITIAL := State(map[], map[], map[], map[], {})

  function LockOf(s: State, l: Id): Lock {
    if l in s.locks then s.locks[l] else FREE
  }

  function HooksOf(s: State, t: Task): set<Id> {
    if t in s.hooks then s.hooks[t] else {}
  }

  function SetLock(s: State, l: Id, lock: Lock): State {
    s.(locks := s.locks[l := lock])
  }

  function Protected(s: State, t: Task, l: Id): State {
    s.(hooks := s.hooks[t := HooksOf(s, t) + {l}])
  }

  /** unprotectdie: with its last lock the task's hook goes too. */
  function Unprotected(s: State, t: Task, l: Id): State {
    var left := HooksOf(s, t) - {l};
    s.(hooks := if left == {} then s.hooks - {t} else s.hooks[t := left])
  }

  /** One round of the loop of acquire: the lock is taken, or the task goes to sleep on it. */
  function Tried(s: State, t: Task, l: Id): State {
    var k := LockOf(s, l);
    if k.owner.Some? then SetLock(s, l, k.(waiting := k.waiting + {t})).(asleep := s.asleep[t := l])
    else SetLock(s, l, Lock(Some(t), k.waiting - {t}, k.inside + {t}))
  }

  /** sched.signal(lock, t): t is woken if it is asleep on this lock; otherwise the signal is lost. */
  function Signalled(s: State, l: Id, t: Task): State {
    if t in s.asleep && s.asleep[t] == l then s.(asleep := s.asleep - {t}, woken := s.woken[t := l]) else s
  }

  /** release by or for the owner t; pick is whichever waiting task comes first. */
  function Released(s: State, t: Task, l: Id, pick: Option<Task>): State {
    var k := LockOf(s, l);
    var s' := SetLock(Unprotected(s, t, l), l, k.(owner := None, inside := k.inside - {t}));
    if pick.Some? then Signalled(s', l, pick.value) else s'
  }

  predicate GoodPick(waiting: set<Task>, pick: Option<Task>) {
    if pick.Some? then pick.value in waiting else waiting == {}
  }

  /** autorelease goes through the locks of the dead task in some order. */
  function AutoReleased(s: State, t: Task, order: seq<(Id, Option<Task>)>): State
    decreases order
  {
    if order == [] then s
    else
      var l, k := order[0].0, LockOf(s, order[0].0);
      var s' := if k.owner == Some(t) then Released(s, t, l, order[0].1)
                else SetLock(s, l, k.(waiting := k.waiting - {t}));
      AutoReleased(s', t, order[1..])
  }

  /** The picks of an autorelease: each lock once, and a waiting task wherever there is one. */
  ghost predicate GoodOrder(s: State, t: Task, order: seq<(Id, Option<Task>)>) {
    && (forall l :: l in HooksOf(s, t) <==> exists i :: 0 <= i < |order| && order[i].0 == l)
    && (forall i, j :: 0 <= i < j < |order| ==> order[i].0 != order[j].0)
    && (forall i :: 0 <= i < |order| ==> PicksWell(s, t, order[i].0, order[i].1))
  }

  /** Where a lock is released, a waiting task is picked if there is one. */
  predicate PicksWell(s: State, t: Task, l: Id, pick: Option<Task>) {
    LockOf(s, l).owner == Some(t) ==> GoodPick(LockOf(s, l).waiting, pick)
  }

  function Died(s: State, t: Task, order: seq<(Id, Option<Task>)>): State {
    var s' := AutoReleased(s.(asleep := s.asleep - {t}, woken := s.woken - {t}, dead := s.dead + {t}), t, order);
    s'.(hooks := s'.hooks - {t})
  }

  datatype Action =
    | Acquire(task: Task, lock: Id)
    | Retry(task: Task)
    | Release(owner: Task, lock: Id, pick: Option<Task>)
    | Die(task: Task, order: seq<(Id, Option<Task>)>)

  predicate Free(s: State, t: Task) {
    t !in s.asleep && t !in s.woken && t !in s.dead
  }

  /** A task asleep can be killed; one that was woken cannot: see KillLosesWakeup. */
  ghost predicate Enabled(s: State, a: Action) {
    match a
    case Acquire(t, l) => Free(s, t) && LockOf(s, l).owner != Some(t)
    case Retry(t) => t in s.woken
    case Release(t, l, pick) => LockOf(s, l).owner == Some(t) && GoodPick(LockOf(s, l).waiting, pick)
    case Die(t, order) => t !in s.woken && t !in s.dead && GoodOrder(s, t, order)
  }

  ghost function Step(s: State, a: Action): State
    requires Enabled(s, a)
  {
    match a
    case Acquire(t, l) => Tried(Protected(s, t, l), t, l)
    case Retry(t) => Tried(s.(woken := s.woken - {t}), t, s.woken[t])
    case Release(t, l, pick) => Released(s, t, l, pick)
    case Die(t, order) => Died(s, t, order)
  }

  /* ---- What is kept ---- */

  /** t is asleep on l, or was woken from it. */
  predicate WaitsAt(s: State, t: Task, l: Id) {
    (t in s.asleep && s.asleep[t] == l) || (t in s.woken && s.woken[t] == l)
  }

  /** A waiting task is asleep or woken, protected and alive. */
  predicate Waiter(s: State, l: Id, t: Task) {
    && (t in LockOf(s, l).waiting <==> WaitsAt(s, t, l))
    && (t in LockOf(s, l).waiting ==> l in HooksOf(s, t) && t !in s.dead)
  }

  /** Only the owner is inside; it is alive, protected, and does not wait. */
  predicate Owned(s: State, l: Id) {
    var k := LockOf(s, l);
    && k.inside == (if k.owner.Some? then {k.owner.value} else {})
    && (k.owner.Some? ==> k.owner.value !in s.dead && l in HooksOf(s, k.owner.value) && k.owner.value !in k.waiting)
  }

  /** No lost wake-up: if the lock is free and tasks wait for it, one of them is in the ready list. */
  ghost predicate NoneLost(s: State, l: Id) {
    var k := LockOf(s, l);
    k.owner == None && k.waiting != {} ==> exists t :: t in k.waiting && t in s.woken
  }

  ghost predicate Inv(s: State) {
    && (forall l {:trigger Owned(s, l)} :: Owned(s, l))
    && (forall l {:trigger NoneLost(s, l)} :: NoneLost(s, l))
    && (forall l, t {:trigger Waiter(s, l, t)} :: Waiter(s, l, t))
    && s.asleep.Keys !! s.woken.Keys
  }

  lemma StepAcquire(s: State, t: Task, l: Id)
    requires Inv(s) && Free(s, t) && LockOf(s, l).owner != Some(t)
    ensures Inv(Tried(Protected(s, t, l), t, l))
  {
    var s' := Tried(Protected(s, t, l), t, l);
    forall x: Id ensures Owned(s', x) && NoneLost(s', x) {
      assert Owned(s, x) && NoneLost(s, x) && Waiter(s, x, t);
    }
    forall x: Id, u: Task ensures Waiter(s', x, u) {
      assert Waiter(s, x, u);
    }
  }

  lemma StepRetry(s: State, t: Task)
    requires Inv(s) && t in s.woken
    ensures Inv(Tried(s.(woken := s.woken - {t}), t, s.woken[t]))
  {
    var s' := Tried(s.(woken := s.woken - {t}), t, s.woken[t]);
    assert Waiter(s, s.woken[t], t);
    forall x: Id ensures Owned(s', x) && NoneLost(s', x) {
      assert Owned(s, x) && NoneLost(s, x) && Waiter(s, x, t);
    }
    forall x: Id, u: Task ensures Waiter(s', x, u) {
      assert Waiter(s, x, u);
    }
  }

  lemma StepRelease(s: State, t: Task, l: Id, pick: Option<Task>)
    requires Inv(s) && LockOf(s, l).owner == Some(t) && GoodPick(LockOf(s, l).waiting, pick)
    ensures Inv(Released(s, t, l, pick))
  {
    var s' := Released(s, t, l, pick);
    assert Owned(s, l);
    if pick.Some? {
      assert Waiter(s, l, pick.value);
    }
    forall x: Id ensures Owned(s', x) && NoneLost(s', x) {
      assert Owned(s, x) && NoneLost(s, x);
    }
    forall x: Id, u: Task ensures Waiter(s', x, u) {
      assert Waiter(s, x, u);
    }
  }

  /* ---- The death of a task ---- */

  predicate Left(order: seq<(Id, Option<Task>)>, l: Id) {
    exists i {:trigger order[i]} :: 0 <= i < |order| && order[i].0 == l
  }

  /** While the locks of the dead task t are gone through; order: those still to come. */
  predicate Pending(s: State, t: Task, l: Id, order: seq<(Id, Option<Task>)>) {
    var k := LockOf(s, l);
    && k.inside == (if k.owner.Some? then {k.owner.value} else {})
    && (k.owner.Some? ==> k.owner.value !in k.waiting)
    && (k.owner.Some? && k.owner.value != t ==> k.owner.value !in s.dead && l in HooksOf(s, k.owner.value))
    && (k.owner == Some(t) || t in k.waiting ==> Left(order, l))
  }

  ghost predicate Dying(s: State, t: Task, order: seq<(Id, Option<Task>)>) {
    && (forall l {:trigger Pending(s, t, l, order)} :: Pending(s, t, l, order))
    && (forall l {:trigger NoneLost(s, l)} :: NoneLost(s, l))
    && (forall l, u {:trigger Waiter(s, l, u)} :: u != t ==> Waiter(s, l, u))
    && t !in s.asleep && t !in s.woken && s.asleep.Keys !! s.woken.Keys
  }

  /** Distinct locks, and a waiting task picked wherever there is one. */
  predicate GoodPicks(s: State, t: Task, order: seq<(Id, Option<Task>)>) {
    && (forall i, j :: 0 <= i < j < |order| ==> order[i].0 != order[j].0)
    && (forall i :: 0 <= i < |order| ==> PicksWell(s, t, order[i].0, order[i].1))
  }

  function OneReleased(s: State, t: Task, l: Id, pick: Option<Task>): State {
    var k := LockOf(s, l);
    if k.owner == Some(t) then Released(s, t, l, pick) else SetLock(s, l, k.(waiting := k.waiting - {t}))
  }

  lemma OnePending(s: State, t: Task, order: seq<(Id, Option<Task>)>, x: Id)
    requires order != [] && Dying(s, t, order) && GoodPicks(s, t, order)
    ensures Pending(OneReleased(s, t, order[0].0, order[0].1), t, x, order[1..])
  {
    hide Left;
    assert Pending(s, t, order[0].0, order) && Pending(s, t, x, order);
    LeftFirst(order, x);
  }

  lemma OneNoneLost(s: State, t: Task, order: seq<(Id, Option<Task>)>, x: Id)
    requires order != [] && Dying(s, t, order) && GoodPicks(s, t, order)
    ensures NoneLost(OneReleased(s, t, order[0].0, order[0].1), x)
  {
    hide Left;
    var l, pick := order[0].0, order[0].1;
    assert PicksWell(s, t, l, pick);
    assert Pending(s, t, l, order) && NoneLost(s, x);
    if pick.Some? && pick.value != t {
      assert Waiter(s, l, pick.value);
    }
  }

  lemma OneWaiter(s: State, t: Task, order: seq<(Id, Option<Task>)>, x: Id, u: Task)
    requires order != [] && Dying(s, t, order) && u != t
    ensures Waiter(OneReleased(s, t, order[0].0, order[0].1), x, u)
  {
    assert Waiter(s, x, u);
  }

  lemma OneKeeps(s: State, t: Task, order: seq<(Id, Option<Task>)>)
    requires order != [] && Dying(s, t, order) && GoodPicks(s, t, order)
    ensures var s' := OneReleased(s, t, order[0].0, order[0].1);
      Dying(s', t, order[1..]) && GoodPicks(s', t, order[1..])
  {
    hide Pending, NoneLost, Waiter, GoodPick;
    var s', rest := OneReleased(s, t, order[0].0, order[0].1), order[1..];
    forall x: Id ensures Pending(s', t, x, rest) && NoneLost(s', x) {
      OnePending(s, t, order, x);
      OneNoneLost(s, t, order, x);
    }
    forall x: Id, u: Task | u != t ensures Waiter(s', x, u) {
      OneWaiter(s, t, order, x, u);
    }
    forall i | 0 <= i < |rest| ensures PicksWell(s', t, rest[i].0, rest[i].1) {
      assert order[i + 1] == rest[i] && order[0].0 != order[i + 1].0;
    }
  }

  lemma {:induction false} AutoKeeps(s: State, t: Task, order: seq<(Id, Option<Task>)>)
    requires Dying(s, t, order) && GoodPicks(s, t, order)
    ensures Dying(AutoReleased(s, t, order), t, [])
    decreases order
  {
    hide Dying, GoodPicks;
    if order != [] {
      OneKeeps(s, t, order);
      AutoKeeps(OneReleased(s, t, order[0].0, order[0].1), t, order[1..]);
    }
  }

  lemma StepDie(s: State, t: Task, order: seq<(Id, Option<Task>)>)
    requires Inv(s) && t !in s.woken && t !in s.dead && GoodOrder(s, t, order)
    ensures Inv(Died(s, t, order))
  {
    var s1 := s.(asleep := s.asleep - {t}, woken := s.woken - {t}, dead := s.dead + {t});
    forall l: Id ensures Pending(s1, t, l, order) && NoneLost(s1, l) {
      assert Owned(s, l) && NoneLost(s, l) && Waiter(s, l, t);
    }
    forall l: Id, u: Task | u != t ensures Waiter(s1, l, u) {
      assert Waiter(s, l, u);
    }
    AutoKeeps(s1, t, order);
    DeadGone(AutoReleased(s1, t, order), t);
  }

  lemma DeadGone(s: State, t: Task)
    requires Dying(s, t, [])
    ensures Inv(s.(hooks := s.hooks - {t}))
  {
    var s' := s.(hooks := s.hooks - {t});
    forall l: Id ensures Owned(s', l) && NoneLost(s', l) {
      assert Pending(s, t, l, []) && NoneLost(s, l);
    }
    forall l: Id, u: Task ensures Waiter(s', l, u) {
      assert Pending(s, t, l, []) && (u != t ==> Waiter(s, l, u));
    }
  }

  /* ---- What each action does ---- */

  /** The lock is taken at once if it is free, whoever waits for it; otherwise the task waits, asleep. */
  predicate TakesIfFree(s: State, s': State, t: Task, l: Id) {
    if LockOf(s, l).owner == None then
      LockOf(s', l).owner == Some(t) && t !in s'.asleep && t !in s'.woken && LockOf(s', l).waiting == LockOf(s, l).waiting - {t}
    else
      && LockOf(s', l).owner == LockOf(s, l).owner && t in s'.asleep && s'.asleep[t] == l
      && LockOf(s', l).waiting == LockOf(s, l).waiting + {t}
  }

  /** Nothing changes for other locks and other tasks. */
  ghost predicate OthersAside(s: State, s': State, t: Task, l: Id) {
    && (forall x {:trigger LockOf(s', x)} :: x != l ==> LockOf(s', x) == LockOf(s, x))
    && (forall u {:trigger u in s'.asleep} {:trigger u in s'.woken} :: u != t ==>
          (u in s'.asleep <==> u in s.asleep) && (u in s'.woken <==> u in s.woken))
    && s'.dead == s.dead
  }

  lemma AcquireIs(s: State, t: Task, l: Id)
    requires Inv(s) && Enabled(s, Acquire(t, l))
    ensures TakesIfFree(s, Step(s, Acquire(t, l)), t, l) && OthersAside(s, Step(s, Acquire(t, l)), t, l)
  {
  }

  /** A woken task tries again. */
  lemma RetryIs(s: State, t: Task)
    requires Inv(s) && Enabled(s, Retry(t))
    ensures TakesIfFree(s, Step(s, Retry(t)), t, s.woken[t]) && OthersAside(s, Step(s, Retry(t)), t, s.woken[t])
  {
  }

  /** The lock is free, and one of the waiting tasks, if there are any, is in the ready list. */
  lemma ReleaseIs(s: State, t: Task, l: Id, pick: Option<Task>)
    requires Inv(s) && Enabled(s, Release(t, l, pick))
    ensures var s' := Step(s, Release(t, l, pick));
      && LockOf(s', l).owner == None && LockOf(s', l).waiting == LockOf(s, l).waiting && LockOf(s', l).inside == {}
      && (if pick.Some? then pick.value in LockOf(s, l).waiting && pick.value in s'.woken && s'.woken[pick.value] == l
          else LockOf(s, l).waiting == {})
      && OthersAside(s, s', if pick.Some? then pick.value else t, l)
  {
    assert Owned(s, l);
    if pick.Some? {
      assert Waiter(s, l, pick.value);
    }
  }

  /** A dead task owns nothing, waits for nothing, and nothing waits for its death. */
  lemma DieIs(s: State, t: Task, order: seq<(Id, Option<Task>)>, l: Id)
    requires Inv(s) && Enabled(s, Die(t, order))
    ensures var s' := Step(s, Die(t, order));
      && t in s'.dead && t !in s'.asleep && t !in s'.woken && t !in s'.hooks
      && LockOf(s', l).owner != Some(t) && t !in LockOf(s', l).waiting
      && (LockOf(s, l).owner != Some(t) ==> LockOf(s', l).owner == LockOf(s, l).owner)
      && LockOf(s', l).waiting == LockOf(s, l).waiting - {t}
  {
    StepDie(s, t, order);
    var s' := Step(s, Die(t, order));
    OwnersStay(s.(asleep := s.asleep - {t}, woken := s.woken - {t}, dead := s.dead + {t}), t, order, l);
    AutoDead(s.(asleep := s.asleep - {t}, woken := s.woken - {t}, dead := s.dead + {t}), t, order);
    assert Owned(s', l) && Waiter(s', l, t) && Waiter(s, l, t);
    assert Owned(s, l);
  }

  lemma {:induction false} AutoDead(s: State, t: Task, order: seq<(Id, Option<Task>)>)
    requires t !in s.asleep && t !in s.woken
    ensures var s' := AutoReleased(s, t, order); s'.dead == s.dead && t !in s'.asleep && t !in s'.woken
    decreases order
  {
    if order != [] {
      AutoDead(OneReleased(s, t, order[0].0, order[0].1), t, order[1..]);
    }
  }

  lemma {:induction false} OwnersStay(s: State, t: Task, order: seq<(Id, Option<Task>)>, l: Id)
    ensures var k, k' := LockOf(s, l), LockOf(AutoReleased(s, t, order), l);
      && (k.owner != Some(t) ==> k'.owner == k.owner)
      && (k'.waiting == k.waiting || k'.waiting == k.waiting - {t})
    decreases order
  {
    if order != [] {
      OwnersStay(OneReleased(s, t, order[0].0, order[0].1), t, order[1..], l);
    }
  }

  /* ---- Runs ---- */

  ghost predicate CanRun(s: State, actions: seq<Action>)
    decreases actions
  {
    actions == [] || (Enabled(s, actions[0]) && CanRun(Step(s, actions[0]), actions[1..]))
  }

  ghost function Reached(s: State, actions: seq<Action>): State
    requires CanRun(s, actions)
    decreases actions
  {
    if actions == [] then s else Reached(Step(s, actions[0]), actions[1..])
  }

  /** Whatever the interleaving: at most one task is between acquire and release, and while the lock is free and tasks
      wait for it, one of them is about to run. */
  lemma {:induction false} Safe(s: State, actions: seq<Action>, l: Id)
    requires Inv(s) && CanRun(s, actions)
    ensures Inv(Reached(s, actions))
    ensures |LockOf(Reached(s, actions), l).inside| <= 1
    ensures NoneLost(Reached(s, actions), l)
    decreases actions
  {
    if actions == [] {
      assert Owned(s, l) && NoneLost(s, l);
    } else {
      match actions[0] {
        case Acquire(t, k) => StepAcquire(s, t, k);
        case Retry(t) => StepRetry(s, t);
        case Release(t, k, pick) => StepRelease(s, t, k, pick);
        case Die(t, order) => StepDie(s, t, order);
      }
      Safe(Step(s, actions[0]), actions[1..], l);
    }
  }

  lemma AtFirst()
    ensures Inv(INITIAL)
  {
  }

  /* ---- Killing a task that was woken ---- */

  /** What the releases of t's other locks leave as it was on l. */
  lemma {:induction false} OtherLock(s: State, t: Task, order: seq<(Id, Option<Task>)>, l: Id)
    requires LockOf(s, l).owner != Some(t)
    requires forall u {:trigger Waiter(s, l, u)} :: u != t ==> Waiter(s, l, u)
    requires s.asleep.Keys !! s.woken.Keys
    ensures var s' := AutoReleased(s, t, order);
      && LockOf(s', l).owner == LockOf(s, l).owner
      && LockOf(s', l).waiting == LockOf(s, l).waiting - (if Left(order, l) then {t} else {})
      && forall u :: u != t && u in LockOf(s, l).waiting ==> (u in s'.woken <==> u in s.woken)
    decreases order
  {
    if order != [] {
      var x, rest := order[0].0, order[1..];
      var s1 := OneReleased(s, t, x, order[0].1);
      forall u: Task | u != t ensures Waiter(s1, l, u) {
        assert Waiter(s, l, u);
      }
      forall u: Task | u != t && u in LockOf(s, l).waiting ensures u in s1.woken <==> u in s.woken {
        assert Waiter(s, l, u);
      }
      OtherLock(s1, t, rest, l);
      LeftFirst(order, l);
    }
  }

  lemma LeftFirst(order: seq<(Id, Option<Task>)>, l: Id)
    requires order != []
    ensures Left(order, l) <==> order[0].0 == l || Left(order[1..], l)
  {
    if Left(order, l) && order[0].0 != l {
      var i :| 0 <= i < |order| && order[i].0 == l;
      assert order[1..][i - 1].0 == l;
    }
    if Left(order[1..], l) {
      var i :| 0 <= i < |order[1..]| && order[1..][i].0 == l;
      assert order[i + 1].0 == l;
    }
  }

  /** A kill between the signal and the task's next turn loses the wake-up, unless the lock has been taken
      meanwhile, nobody else waits, or another waiting task has been woken too. */
  lemma KillWokenIff(s: State, t: Task, order: seq<(Id, Option<Task>)>)
    requires Inv(s) && t in s.woken && GoodOrder(s, t, order)
    ensures var l := s.woken[t];
      NoneLost(Died(s, t, order), l) <==>
      LockOf(s, l).owner.Some? || LockOf(s, l).waiting == {t} || exists u :: u != t && u in LockOf(s, l).waiting && u in s.woken
  {
    var l := s.woken[t];
    var s1 := s.(asleep := s.asleep - {t}, woken := s.woken - {t}, dead := s.dead + {t});
    assert Owned(s, l) && Waiter(s, l, t);
    forall u: Task | u != t ensures Waiter(s1, l, u) || u !in LockOf(s, l).waiting {
      assert Waiter(s, l, u);
    }
    forall u: Task | u != t ensures Waiter(s1, l, u) {
      assert Waiter(s, l, u);
    }
    OtherLock(s1, t, order, l);
    assert Left(order, l);
  }

  /** Task 1 owns lock 0, tasks 2 and 3 wait for it, and 1 releases it to 2. */
  const CROWD := [Acquire(1, 0), Acquire(2, 0), Acquire(3, 0), Release(1, 0, Some(2))]

  const AFTER_CROWD :=
    State(map[0 := Lock(None, {2, 3}, {})], map[2 := {0}, 3 := {0}], map[3 := 0], map[2 := 0], {})

  lemma CrowdRuns()
    ensures CanRun(INITIAL, CROWD) && Reached(INITIAL, CROWD) == AFTER_CROWD
  {
    var s1 := State(map[0 := Lock(Some(1), {}, {1})], map[1 := {0}], map[], map[], {});
    var s2 := State(map[0 := Lock(Some(1), {2}, {1})], map[1 := {0}, 2 := {0}], map[2 := 0], map[], {});
    var s3 := State(map[0 := Lock(Some(1), {2, 3}, {1})], map[1 := {0}, 2 := {0}, 3 := {0}], map[2 := 0, 3 := 0], map[], {});
    assert CROWD[1..] == [Acquire(2, 0), Acquire(3, 0), Release(1, 0, Some(2))];
    assert CROWD[1..][1..] == [Acquire(3, 0), Release(1, 0, Some(2))];
    assert CROWD[1..][1..][1..] == [Release(1, 0, Some(2))];
    assert CROWD[1..][1..][1..][1..] == [];
    var nobody: set<Task>, nothing: set<Id> := {}, {};
    assert nothing + {0} == {0};
    assert Step(INITIAL, CROWD[0]) == s1 by {
      assert nobody - {1} == {} && nobody + {1} == {1};
      assert Step(INITIAL, CROWD[0]).locks == s1.locks && Step(INITIAL, CROWD[0]).hooks == s1.hooks;
    }
    assert Step(s1, CROWD[1]) == s2 by {
      assert nobody + {2} == {2};
      assert Step(s1, CROWD[1]).locks == s2.locks && Step(s1, CROWD[1]).hooks == s2.hooks;
      assert Step(s1, CROWD[1]).asleep == s2.asleep;
    }
    assert Step(s2, CROWD[2]) == s3 by {
      assert {2} + {3} == {2, 3};
      assert Step(s2, CROWD[2]).locks == s3.locks && Step(s2, CROWD[2]).hooks == s3.hooks;
      assert Step(s2, CROWD[2]).asleep == s3.asleep;
    }
    assert Step(s3, CROWD[3]) == AFTER_CROWD by {
      assert HooksOf(s3, 1) - {0} == {};
      assert s3.hooks - {1} == map[2 := {0}, 3 := {0}];
      assert s3.asleep - {2} == map[3 := 0];
    }
  }

  /** Killing task 2 now leaves the lock free, and task 3 asleep on it. */
  lemma KillLosesWakeup()
    ensures GoodOrder(AFTER_CROWD, 2, [(0, Some(3))]) && !NoneLost(Died(AFTER_CROWD, 2, [(0, Some(3))]), 0)
  {
    var s, order := AFTER_CROWD, [(0, Some(3))];
    assert order[0].0 == 0;
    CrowdRuns();
    AtFirst();
    Safe(INITIAL, CROWD, 0);
    KillWokenIff(s, 2, order);
    assert 3 in LockOf(s, 0).waiting && 3 !in s.woken;
  }
}
