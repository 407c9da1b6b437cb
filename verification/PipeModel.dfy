/** Pipes (sched/pipe.lua) in their simple form: a list of items, and the tasks blocked on the pipe. */
module PipeModel {
  import opened Bytes

  type Task = nat

  datatype Status = Empty | Full | Ready

  /** What a task is in the middle of. */
  datatype Role<T> = Receiving | Sending(x: T)

  /** due: tasks that were woken up and have not tried again yet. */
  datatype Pipe<T> = Pipe(
    items: seq<T>,
    max: Option<real>,
    status: Status,
    blocked: map<Task, Role<T>>,
    due: map<Task, Role<T>>)

  function New<T>(max: Option<real>): Pipe<T> {
    Pipe([], max, Empty, map[], map[])
  }

  function StatusOf(length: nat, max: Option<real>): Status {
    if length == 0 then Empty else if max == Some(length as real) then Full else Ready
  }

  /** updatestate: a change of status is signalled, which wakes every task blocked on the pipe. */
  function Updated<T>(s: Pipe<T>, items: seq<T>, max: Option<real>): Pipe<T> {
    var status := StatusOf(|items|, max);
    if status == s.status then s.(items := items, max := max)
    else Pipe(items, max, status, map[], s.due + s.blocked)
  }

  /** What a call gives: an item, nothing, an error, or the task switches. */
  datatype Answer<T> = Got(x: T) | Sent | Failed | Blocks

  datatype Outcome<T> = Outcome(pipe: Pipe<T>, answer: Answer<T>)

  /** One round of the loop in receive or send; late: the time allowed has run out. */
  function Try<T>(s: Pipe<T>, t: Task, role: Role<T>, late: bool): Outcome<T> {
    match role
    case Receiving =>
      if s.items == [] then
        if late then Outcome(s, Failed) else Outcome(s.(blocked := s.blocked[t := role]), Blocks)
      else Outcome(Updated(s, s.items[1..], s.max), Got(s.items[0]))
    case Sending(x) =>
      if s.status.Full? then
        if late then Outcome(s, Failed) else Outcome(s.(blocked := s.blocked[t := role]), Blocks)
      else Outcome(Updated(s, s.items + [x], s.max), Sent)
  }

  function Pushed<T>(s: Pipe<T>, x: T): Outcome<T> {
    if s.status.Full? then Outcome(s, Failed) else Outcome(Updated(s, [x] + s.items, s.max), Sent)
  }

  /** setmaxlength; without a number it stops with an error, though its documentation gives nil a meaning. */
  function Resized<T>(s: Pipe<T>, max: Option<real>): Outcome<T> {
    if max == None || |s.items| as real > max.value || max.value < 1.0 then Outcome(s, Failed)
    else Outcome(Updated(s, s.items, max), Sent)
  }

  datatype Action<T> =
    | Begin(task: Task, role: Role<T>, late: bool)
    | Retry(task: Task, late: bool)
    | TimeOut(task: Task)
    | Pushback(x: T)
    | SetMax(max: Option<real>)

  predicate Enabled<T>(s: Pipe<T>, a: Action<T>) {
    match a
    case Begin(t, _, _) => t !in s.blocked && t !in s.due
    case Retry(t, _) => t in s.due
    case TimeOut(t) => t in s.blocked
    case _ => true
  }

  /** Everything between two task switches. */
  function Step<T>(s: Pipe<T>, a: Action<T>): Outcome<T>
    requires Enabled(s, a)
  {
    match a
    case Begin(t, role, late) => Try(s, t, role, late)
    case Retry(t, late) => Try(s.(due := s.due - {t}), t, s.due[t], late)
    case TimeOut(t) => Outcome(s.(blocked := s.blocked - {t}), Failed)
    case Pushback(x) => Pushed(s, x)
    case SetMax(max) => Resized(s, max)
  }

  predicate CanRun<T>(s: Pipe<T>, actions: seq<Action<T>>)
    decreases actions
  {
    actions == [] || (Enabled(s, actions[0]) && CanRun(Step(s, actions[0]).pipe, actions[1..]))
  }

  function Reached<T>(s: Pipe<T>, actions: seq<Action<T>>): Pipe<T>
    requires CanRun(s, actions)
    decreases actions
  {
    if actions == [] then s else Reached(Step(s, actions[0]).pipe, actions[1..])
  }

  /* ---- No lost wake-up ---- */

  /** The status is that of the items; a task is blocked in receive only on an empty pipe, and in send only on a
      full one. */
  predicate NoLostWakeup<T>(s: Pipe<T>) {
    && s.status == StatusOf(|s.items|, s.max)
    && (forall t :: t in s.blocked ==> if s.blocked[t].Receiving? then s.items == [] else s.status.Full?)
    && s.blocked.Keys !! s.due.Keys
  }

  lemma StepWakes<T>(s: Pipe<T>, a: Action<T>)
    requires NoLostWakeup(s) && Enabled(s, a)
    ensures NoLostWakeup(Step(s, a).pipe)
  {
  }

  /** At every task switch: what blocks a task is really there, so blocked readers and blocked writers never
      meet. */
  lemma {:induction false} RunWakes<T>(s: Pipe<T>, actions: seq<Action<T>>)
    requires NoLostWakeup(s) && CanRun(s, actions)
    ensures NoLostWakeup(Reached(s, actions))
    ensures var b := Reached(s, actions).blocked;
      !exists t, u :: t in b && u in b && b[t].Receiving? && b[u].Sending?
    decreases actions
  {
    if actions != [] {
      StepWakes(s, actions[0]);
      RunWakes(Step(s, actions[0]).pipe, actions[1..]);
    }
  }

  /* ---- When calls return ---- */

  /** A call of receive: the first item if there is one; otherwise it waits, unless its time has run out. */
  lemma ReceiveIs<T>(s: Pipe<T>, t: Task, late: bool)
    requires NoLostWakeup(s) && t !in s.blocked && t !in s.due
    ensures var o := Step(s, Begin(t, Receiving, late));
      if s.items != [] then o.answer == Got(s.items[0]) && o.pipe.items == s.items[1..] && t !in o.pipe.blocked
      else if late then o == Outcome(s, Failed)
      else o == Outcome(s.(blocked := s.blocked[t := Receiving]), Blocks)
  {
  }

  /** A call of send: it waits when there are exactly as many items as the limit allows, unless its time has run out. */
  lemma SendIs<T>(s: Pipe<T>, t: Task, x: T, late: bool)
    requires NoLostWakeup(s) && t !in s.blocked && t !in s.due
    ensures var o := Step(s, Begin(t, Sending(x), late));
      if s.items == [] || s.max != Some(|s.items| as real) then
        o.answer == Sent && o.pipe.items == s.items + [x] && t !in o.pipe.blocked
      else if late then o == Outcome(s, Failed)
      else o == Outcome(s.(blocked := s.blocked[t := Sending(x)]), Blocks)
  {
  }

  /** Putting back and changing the limit are possible at any time, and a task that does nothing else can begin. */
  lemma AnyTime<T>(s: Pipe<T>, t: Task, role: Role<T>, x: T, max: Option<real>, late: bool)
    ensures Enabled(s, Pushback(x)) && Enabled(s, SetMax(max))
    ensures Enabled(s, Begin(t, role, late)) <==> CallOf(s, t) == None
    ensures Enabled(s, TimeOut(t)) <==> t in s.blocked
    ensures Enabled(s, Retry(t, late)) <==> t in s.due
  {
  }

  /** Putting back: the item becomes the first, unless there are as many as the limit allows. */
  lemma PushbackIs<T>(s: Pipe<T>, x: T)
    requires NoLostWakeup(s)
    ensures var o := Step(s, Pushback(x));
      if s.items != [] && s.max == Some(|s.items| as real) then o == Outcome(s, Failed)
      else o.answer == Sent && o.pipe.items == [x] + s.items && o.pipe.max == s.max
  {
  }

  /** Trying again is a new call, in the same role. */
  lemma RetryIs<T>(s: Pipe<T>, t: Task, late: bool)
    requires NoLostWakeup(s) && t in s.due
    ensures Step(s, Retry(t, late)) == Step(s.(due := s.due - {t}), Begin(t, s.due[t], late))
  {
  }

  /** An item that comes into an empty pipe, and one that leaves a full one, wakes everybody who is blocked. */
  lemma WakesAll<T>(s: Pipe<T>, t: Task, role: Role<T>, late: bool)
    requires NoLostWakeup(s) && t !in s.blocked && t !in s.due
    requires if role.Sending? then s.items == [] else s.items != [] && s.max == Some(|s.items| as real)
    ensures var s' := Step(s, Begin(t, role, late)).pipe; s'.blocked == map[] && s'.due == s.due + s.blocked
  {
  }

  /** The call a task is in the middle of. */
  function CallOf<T>(s: Pipe<T>, t: Task): Option<Role<T>> {
    if t in s.blocked then Some(s.blocked[t]) else if t in s.due then Some(s.due[t]) else None
  }

  /** The actions that are a task's own. */
  predicate Own<T>(a: Action<T>, t: Task) {
    match a
    case Begin(u, _, _) => u == t
    case Retry(u, _) => u == t
    case TimeOut(u) => u == t
    case _ => false
  }

  /** Its time has run out. */
  predicate Late<T>(a: Action<T>) {
    match a
    case Begin(_, _, late) => late
    case Retry(_, late) => late
    case TimeOut(_) => true
    case _ => false
  }

  function One(b: bool): nat { if b then 1 else 0 }

  /** How often t begins a call in a run, how often one returns something or has sent, and how often one fails. */
  function Begins<T>(actions: seq<Action<T>>, t: Task): nat {
    if actions == [] then 0 else One(actions[0].Begin? && Own(actions[0], t)) + Begins(actions[1..], t)
  }

  function Returns<T>(s: Pipe<T>, actions: seq<Action<T>>, t: Task): nat
    requires CanRun(s, actions)
    decreases actions
  {
    if actions == [] then 0
    else
      var o := Step(s, actions[0]);
      One(Own(actions[0], t) && (o.answer.Got? || o.answer.Sent?)) + Returns(o.pipe, actions[1..], t)
  }

  function Fails<T>(s: Pipe<T>, actions: seq<Action<T>>, t: Task): nat
    requires CanRun(s, actions)
    decreases actions
  {
    if actions == [] then 0
    else
      var o := Step(s, actions[0]);
      One(Own(actions[0], t) && o.answer.Failed?) + Fails(o.pipe, actions[1..], t)
  }

  predicate NeverLate<T>(actions: seq<Action<T>>, t: Task) {
    forall i :: 0 <= i < |actions| ==> !(Own(actions[i], t) && Late(actions[i]))
  }

  /** Others leave a call as it is; the task's own action goes on with it, ends it, or begins one. */
  lemma StepReturns<T>(s: Pipe<T>, a: Action<T>, t: Task)
    requires NoLostWakeup(s) && Enabled(s, a)
    ensures var o := Step(s, a); var was, now := CallOf(s, t), CallOf(o.pipe, t);
      && (!Own(a, t) ==> now == was)
      && (Own(a, t) ==>
            && (a.Begin? <==> was == None)
            && (o.answer.Failed? ==> Late(a))
            && (if o.answer.Blocks? then now == (if a.Begin? then Some(a.role) else was) && t in o.pipe.blocked
                else now == None))
  {
  }

  /** Over every run, each call a task makes is still going on or has returned exactly once; and none fails unless its
      time has run out. */
  lemma {:induction false} CallsReturn<T>(s: Pipe<T>, actions: seq<Action<T>>, t: Task)
    requires NoLostWakeup(s) && CanRun(s, actions)
    ensures Begins(actions, t) + One(CallOf(s, t).Some?) ==
            Returns(s, actions, t) + Fails(s, actions, t) + One(CallOf(Reached(s, actions), t).Some?)
    ensures NeverLate(actions, t) ==> Fails(s, actions, t) == 0
    decreases actions
  {
    hide Step, NoLostWakeup, Own, Late, Enabled;
    if actions != [] {
      StepWakes(s, actions[0]);
      StepReturns(s, actions[0], t);
      CallsReturn(Step(s, actions[0]).pipe, actions[1..], t);
      if NeverLate(actions, t) {
        assert !(Own(actions[0], t) && Late(actions[0]));
        assert forall i :: 0 <= i < |actions[1..]| ==> actions[1..][i] == actions[i + 1];
      }
    }
  }

  /* ---- First in, first out ---- */

  /** What an action puts in, and what it takes out. */
  function SentBy<T>(s: Pipe<T>, a: Action<T>): seq<T>
    requires Enabled(s, a)
  {
    if !Step(s, a).answer.Sent? then []
    else match a
         case Begin(_, Sending(x), _) => [x]
         case Retry(t, _) => if s.due[t].Sending? then [s.due[t].x] else []
         case _ => []
  }

  function ReceivedBy<T>(s: Pipe<T>, a: Action<T>): seq<T>
    requires Enabled(s, a)
  {
    if Step(s, a).answer.Got? then [Step(s, a).answer.x] else []
  }

  function SentIn<T>(s: Pipe<T>, actions: seq<Action<T>>): seq<T>
    requires CanRun(s, actions)
    decreases actions
  {
    if actions == [] then [] else SentBy(s, actions[0]) + SentIn(Step(s, actions[0]).pipe, actions[1..])
  }

  function ReceivedIn<T>(s: Pipe<T>, actions: seq<Action<T>>): seq<T>
    requires CanRun(s, actions)
    decreases actions
  {
    if actions == [] then [] else ReceivedBy(s, actions[0]) + ReceivedIn(Step(s, actions[0]).pipe, actions[1..])
  }

  lemma StepFifo<T>(s: Pipe<T>, a: Action<T>)
    requires Enabled(s, a) && !a.Pushback?
    ensures ReceivedBy(s, a) + Step(s, a).pipe.items == s.items + SentBy(s, a)
  {
  }

  /** What is sent is received, all of it, once, in order; the rest is still in the pipe. */
  lemma {:induction false} FirstInFirstOut<T>(s: Pipe<T>, actions: seq<Action<T>>)
    requires CanRun(s, actions) && forall a :: a in actions ==> !a.Pushback?
    ensures ReceivedIn(s, actions) + Reached(s, actions).items == s.items + SentIn(s, actions)
    decreases actions
  {
    hide Step, SentBy, ReceivedBy;
    if actions == [] {
      assert [] + s.items == s.items + [];
    } else {
      var s' := Step(s, actions[0]).pipe;
      StepFifo(s, actions[0]);
      FirstInFirstOut(s', actions[1..]);
      var got, sent := ReceivedBy(s, actions[0]), SentBy(s, actions[0]);
      Assoc(got, ReceivedIn(s', actions[1..]), Reached(s', actions[1..]).items);
      Assoc(got, s'.items, SentIn(s', actions[1..]));
      Assoc(s.items, sent, SentIn(s', actions[1..]));
    }
  }

  /** Pushing back what has just been received undoes the receive, and always can within the limit. */
  lemma PushbackUndoes<T>(s: Pipe<T>, t: Task)
    requires NoLostWakeup(s) && s.items != []
    ensures var o := Try(s, t, Receiving, false);
      var u := Pushed(o.pipe, o.answer.x);
      && (Within(s) ==> u.answer.Sent?)
      && (u.answer.Sent? ==> u.pipe.items == s.items && u.pipe.max == s.max && u.pipe.status == s.status)
  {
    var x := s.items[0];
    assert [x] + s.items[1..] == s.items;
  }

  /* ---- The bound ---- */

  predicate Within<T>(s: Pipe<T>) {
    s.max.Some? ==> |s.items| as real <= s.max.value
  }

  /** What the length can be equal to, and what setmaxlength asks for as well. */
  predicate Whole(max: Option<real>) {
    max.Some? ==> max.value >= 1.0 && max.value.Floor as real == max.value
  }

  ghost predicate WholeLimits<T>(actions: seq<Action<T>>) {
    forall a :: a in actions && a.SetMax? ==> Whole(a.max)
  }

  lemma StepWithin<T>(s: Pipe<T>, a: Action<T>)
    requires NoLostWakeup(s) && Within(s) && Whole(s.max) && Enabled(s, a) && (a.SetMax? ==> Whole(a.max))
    ensures Within(Step(s, a).pipe) && Whole(Step(s, a).pipe.max)
  {
    if s.max.Some? && !s.status.Full? {
      OneMoreFits(|s.items|, s.max.value);
    }
  }

  lemma OneMoreFits(n: nat, max: real)
    requires n as real <= max && n as real != max && max.Floor as real == max
    ensures (n + 1) as real <= max
  {
    assert max.Floor > n;
  }

  lemma {:induction false} RunWithin<T>(s: Pipe<T>, actions: seq<Action<T>>)
    requires NoLostWakeup(s) && Within(s) && Whole(s.max) && CanRun(s, actions) && WholeLimits(actions)
    ensures Within(Reached(s, actions))
    decreases actions
  {
    hide Step, Within, NoLostWakeup;
    if actions != [] {
      StepWakes(s, actions[0]);
      StepWithin(s, actions[0]);
      RunWithin(Step(s, actions[0]).pipe, actions[1..]);
    }
  }

  /** n tasks send x, one after the other. */
  function Sends<T>(x: T, n: nat): seq<Action<T>> {
    if n == 0 then [] else [Begin(n, Sending(x), false)] + Sends(x, n - 1)
  }

  /** A limit that is no whole number is never met, so it never stops a sender. */
  lemma {:induction false} SendsGoThrough<T>(s: Pipe<T>, x: T, n: nat)
    requires s.max.Some? && !Whole(s.max) && !s.status.Full? && s.blocked == map[] && s.due == map[]
    requires s.max.value >= 1.0 || n <= 1
    ensures CanRun(s, Sends(x, n)) && |Reached(s, Sends(x, n)).items| == |s.items| + n
    ensures Reached(s, Sends(x, n)).max == s.max
    decreases n
  {
    if n > 0 {
      var a := Begin(n, Sending(x), false);
      var s' := Step(s, a).pipe;
      assert Sends(x, n)[0] == a && Sends(x, n)[1..] == Sends(x, n - 1);
      if s.max.value >= 1.0 {
        assert s.max.value != (|s.items| + 1) as real;
      }
      SendsGoThrough(s', x, n - 1);
    }
  }

  ghost predicate AlwaysWithin<T(!new)>(max: Option<real>) {
    forall actions: seq<Action<T>> {:trigger CanRun(New<T>(max), actions)} ::
      CanRun(New<T>(max), actions) && WholeLimits(actions) ==> Within(Reached(New<T>(max), actions))
  }

  /** The length stays within the limit given to pipe() exactly when that is a whole number from 1 on, or none. */
  lemma BoundIff<T(!new)>(max: Option<real>, x: T)
    ensures AlwaysWithin<T>(max) <==> Whole(max)
  {
    var s := New<T>(max);
    if Whole(max) {
      forall actions: seq<Action<T>> | CanRun(s, actions) && WholeLimits(actions) ensures Within(Reached(s, actions)) {
        RunWithin(s, actions);
      }
    } else {
      var n: nat := if max.value >= 1.0 then max.value.Floor + 1 else 1;
      SendsGoThrough(s, x, n);
      assert WholeLimits(Sends(x, n)) by { OnlySends(x, n); }
      assert n as real > max.value;
      assert !Within(Reached(s, Sends(x, n)));
    }
  }

  lemma {:induction false} OnlySends<T>(x: T, n: nat)
    ensures forall a :: a in Sends(x, n) ==> a.Begin?
  {
    if n > 0 {
      OnlySends(x, n - 1);
    }
  }

  /* ---- Removing the limit ---- */

  /** The limit is max, the status is right, and tasks blocked on another status have been woken. */
  ghost predicate Limited<T>(s: Pipe<T>, s': Pipe<T>, max: Option<real>) {
    && s'.items == s.items && s'.max == max && s'.status == StatusOf(|s.items|, max)
    && (if s'.status == s.status then s'.blocked == s.blocked && s'.due == s.due
        else s'.blocked == map[] && s'.due == s.due + s.blocked)
  }

  /** What the documentation of setmaxlength promises: nil removes the limit, a number from 1 and the length on
      becomes the limit, and any other number changes nothing. */
  ghost predicate Documented<T>(s: Pipe<T>, max: Option<real>, o: Outcome<T>) {
    if max.Some? && (max.value < 1.0 || max.value < |s.items| as real) then o == Outcome(s, Failed)
    else o.answer == Sent && Limited(s, o.pipe, max)
  }

  lemma ResizeIff<T>(s: Pipe<T>, max: Option<real>)
    ensures Documented(s, max, Resized(s, max)) <==> max.Some?
  {
  }
}
