/** The locks' own tables and methods (sched/lock.lua). */
module Locks {
  import opened Bytes
  import opened LockModel

  class LockTable {
    var locks: map<Id, Lock>
    var hooks: map<Task, set<Id>>
    var asleep: map<Task, Id>
    var woken: map<Task, Id>
    var dead: set<Task>

    function Now(): State
      reads this
    {
      State(locks, hooks, asleep, woken, dead)
    }

    constructor ()
      ensures Now() == INITIAL && fresh(this)
    {
      locks, hooks, asleep, woken, dead := map[], map[], map[], map[], {};
    }

    function Get(l: Id): Lock
      reads this
    {
      if l in locks then locks[l] else FREE
    }

    method ProtectDie(t: Task, l: Id)
      modifies this`hooks
      ensures Now() == Protected(old(Now()), t, l)
    {
      if t !in hooks {
        hooks := hooks[t := {}];
      }
      hooks := hooks[t := hooks[t] + {l}];
    }

    method UnprotectDie(t: Task, l: Id)
      requires t in hooks
      modifies this`hooks
      ensures Now() == Unprotected(old(Now()), t, l)
    {
      hooks := hooks[t := hooks[t] - {l}];
      if hooks[t] == {} {
        hooks := hooks - {t};
      }
    }

    /** The loop of acquire up to the next switch. */
    method Attempt(t: Task, l: Id) returns (taken: bool)
      modifies this`locks, this`asleep
      ensures Now() == Tried(old(Now()), t, l) && taken == (old(Get(l)).owner == None)
    {
      var k := Get(l);
      if k.owner.Some? {
        locks := locks[l := k.(waiting := k.waiting + {t})];
        asleep := asleep[t := l];
        return false;
      }
      locks := locks[l := Lock(Some(t), k.waiting - {t}, k.inside + {t})];
      return true;
    }

    /** acquire; it is an error to acquire a lock one owns. */
    method Acquire(t: Task, l: Id) returns (r: Result<bool, string>)
      requires Free(Now(), t)
      modifies this
      ensures old(Get(l)).owner == Some(t) ==> r.Err? && Now() == old(Now())
      ensures old(Get(l)).owner != Some(t) ==>
                r == Ok(Get(l).owner == Some(t)) && Now() == Step(old(Now()), LockModel.Acquire(t, l))
    {
      if Get(l).owner == Some(t) { return Err("a lock cannot be acquired twice by the same thread"); }
      ProtectDie(t, l);
      var taken := Attempt(t, l);
      return Ok(taken);
    }

    /** A woken task goes through the loop of acquire again. */
    method Resume(t: Task) returns (taken: bool)
      requires t in woken
      modifies this
      ensures Now() == Step(old(Now()), Retry(t)) && taken == (old(Get(woken[t])).owner == None)
    {
      var l := woken[t];
      woken := woken - {t};
      taken := Attempt(t, l);
    }

    method Signal(l: Id, t: Task)
      modifies this`asleep, this`woken
      ensures Now() == Signalled(old(Now()), l, t)
    {
      if t in asleep && asleep[t] == l {
        asleep, woken := asleep - {t}, woken[t := l];
      }
    }

    /** release; next(self.waiting) gives any of the waiting tasks. It is an error for a task that does not own the
        lock. */
    method Release(t: Task, l: Id) returns (r: Result<Option<Task>, string>)
      requires Get(l).owner == Some(t) ==> t in hooks
      modifies this
      ensures old(Get(l)).owner != Some(t) ==> r.Err? && Now() == old(Now())
      ensures old(Get(l)).owner == Some(t) ==>
                r.Ok? && GoodPick(old(Get(l)).waiting, r.value) && Now() == Released(old(Now()), t, l, r.value)
    {
      if Get(l).owner != Some(t) { return Err("unlock must be done by the thread that locked"); }
      UnprotectDie(t, l);
      var k := Get(l);
      locks := locks[l := k.(owner := None, inside := k.inside - {t})];
      if k.waiting == {} { return Ok(None); }
      var pick :| pick in k.waiting;
      Signal(l, pick);
      return Ok(Some(pick));
    }

    /** autorelease, for one lock of the dead task. */
    method ReleaseOne(t: Task, l: Id) returns (pick: Option<Task>)
      requires t in hooks && l in hooks[t]
      modifies this
      ensures Now() == OneReleased(old(Now()), t, l, pick) && PicksWell(old(Now()), t, l, pick)
    {
      pick := None;
      if Get(l).owner == Some(t) {
        var r := Release(t, l);
        pick := r.value;
      } else {
        locks := locks[l := Get(l).(waiting := Get(l).waiting - {t})];
      }
    }

    /** autorelease, when the task has died: its locks are released, or it no longer waits for them. */
    method AutoRelease(t: Task) returns (ghost order: seq<(Id, Option<Task>)>)
      modifies this
      ensures Now() == AutoReleased(old(Now()), t, order).(hooks := AutoReleased(old(Now()), t, order).hooks - {t})
      ensures GoodOrder(old(Now()), t, order)
    {
      hide OneReleased, AutoReleased, PicksWell;
      order := [];
      var left := if t in hooks then hooks[t] else {};
      ghost var first, all := Now(), left;
      NothingReleased(first, t);
      while left != {}
        invariant left <= all && Now() == AutoReleased(first, t, order)
        invariant forall l :: l in all && l !in left <==> Left(order, l)
        invariant GoodPicks(first, t, order)
        invariant forall l {:trigger LockOf(Now(), l)} {:trigger l in left} :: l in left ==>
          LockOf(Now(), l) == LockOf(first, l) && l in HooksOf(Now(), t)
        decreases left
      {
        var l :| l in left;
        ghost var was := Now();
        var pick := ReleaseOne(t, l);
        Untouched(was, t, l, pick);
        OneMore(first, t, order, l, pick);
        MorePicks(first, was, t, order, l, pick);
        LeftMore(order, l, pick);
        order := order + [(l, pick)];
        left := left - {l};
      }
      assert forall l :: l in HooksOf(first, t) <==> Left(order, l);
      hooks := hooks - {t};
    }

    /** The death of a task that was not woken: its "die" signal runs the hook set by acquire, if there is one. */
    method Die(t: Task) returns (ghost order: seq<(Id, Option<Task>)>)
      requires t !in woken && t !in dead
      modifies this
      ensures GoodOrder(old(Now()), t, order) && Now() == Step(old(Now()), LockModel.Die(t, order))
    {
      asleep, dead := asleep - {t}, dead + {t};
      order := [];
      ghost var first := Now();
      if t in hooks {
        order := AutoRelease(t);
      }
      assert old(Now()).(asleep := old(asleep) - {t}, woken := old(woken) - {t}, dead := old(dead) + {t}) == first;
      SameOrder(old(Now()), first, t, order);
    }
  }

  lemma NothingReleased(s: State, t: Task)
    ensures AutoReleased(s, t, []) == s
  {
  }

  /** Releasing one lock leaves the others, and the dead task's claim on them, as they were. */
  lemma Untouched(s: State, t: Task, l: Id, pick: Option<Task>)
    ensures forall x {:trigger LockOf(OneReleased(s, t, l, pick), x)} :: x != l ==>
      LockOf(OneReleased(s, t, l, pick), x) == LockOf(s, x)
    ensures forall x :: x != l && x in HooksOf(s, t) ==> x in HooksOf(OneReleased(s, t, l, pick), t)
  {
  }

  lemma MorePicks(first: State, s: State, t: Task, order: seq<(Id, Option<Task>)>, l: Id, pick: Option<Task>)
    requires GoodPicks(first, t, order) && !Left(order, l) && LockOf(s, l) == LockOf(first, l) && PicksWell(s, t, l, pick)
    ensures GoodPicks(first, t, order + [(l, pick)])
  {
    var more := order + [(l, pick)];
    forall i, j | 0 <= i < j < |more| ensures more[i].0 != more[j].0 {
      assert order[i] == more[i] && (j < |order| ==> order[j] == more[j]);
    }
    forall i | 0 <= i < |more| ensures PicksWell(first, t, more[i].0, more[i].1) {
      assert i < |order| ==> more[i] == order[i];
    }
  }

  lemma SameOrder(s: State, s': State, t: Task, order: seq<(Id, Option<Task>)>)
    requires GoodOrder(s', t, order) && s'.locks == s.locks && s'.hooks == s.hooks
    ensures GoodOrder(s, t, order)
  {
    forall i | 0 <= i < |order| ensures PicksWell(s, t, order[i].0, order[i].1) {
      assert PicksWell(s', t, order[i].0, order[i].1);
    }
  }

  lemma {:induction false} OneMore(s: State, t: Task, order: seq<(Id, Option<Task>)>, l: Id, pick: Option<Task>)
    ensures AutoReleased(s, t, order + [(l, pick)]) == OneReleased(AutoReleased(s, t, order), t, l, pick)
    decreases order
  {
    if order != [] {
      assert (order + [(l, pick)])[1..] == order[1..] + [(l, pick)];
      OneMore(OneReleased(s, t, order[0].0, order[0].1), t, order[1..], l, pick);
    }
  }

  lemma LeftMore(order: seq<(Id, Option<Task>)>, l: Id, pick: Option<Task>)
    ensures forall x {:trigger Left(order, x)} :: Left(order + [(l, pick)], x) <==> Left(order, x) || x == l
  {
    forall x ensures Left(order + [(l, pick)], x) <==> Left(order, x) || x == l {
      assert (order + [(l, pick)])[|order|].0 == l;
      if Left(order, x) {
        var i :| 0 <= i < |order| && order[i].0 == x;
        assert (order + [(l, pick)])[i].0 == x;
      }
    }
  }
}
