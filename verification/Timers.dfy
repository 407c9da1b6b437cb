/** The timer queue (sched/timer.lua): a sorted list of dates, and for each date the set of timers due then. */
module Timers {
  import opened Bytes

  type Timer = nat
  type Date = real
  type Due = (Timer, Date)

  /** What a callback does to the queue. */
  datatype Op =
    | Set(timer: Timer, date: Date)
    | Rearm(timer: Timer, next: Option<Date>)
    | Cancel(timer: Timer)

  /** What firing a timer leads to: its callback, then its own next date. */
  datatype Behaviour = Behaviour(ops: seq<Op>, next: Option<Date>)

  const IDLE := Behaviour([], None)

  /* ---- The simple form: a set of pending dates ---- */

  /** nd is each timer's own record of its date; batch is what step has taken out and not fired yet. */
  datatype Sys = Sys(pending: set<Due>, nd: map<Timer, Date>, batch: set<Due>, script: seq<Behaviour>)

  function Rearmed(s: Sys, t: Timer, next: Option<Date>): Sys {
    match next
    case None => s.(nd := s.nd - {t})
    case Some(d) => s.(nd := s.nd[t := d], pending := s.pending + {(t, d)})
  }

  predicate Registered(s: Sys, t: Timer) {
    t in s.nd && (t, s.nd[t]) in s.pending
  }

  function Cancelled(s: Sys, t: Timer): Sys {
    if Registered(s, t) then s.(pending := s.pending - {(t, s.nd[t])}, nd := s.nd - {t}) else s
  }

  function DoOp(s: Sys, op: Op): Sys {
    match op
    case Set(t, d) => Rearmed(s, t, Some(d))
    case Rearm(t, next) => Rearmed(s, t, next)
    case Cancel(t) => Cancelled(s, t)
  }

  function DoOps(s: Sys, ops: seq<Op>): Sys
    decreases ops
  {
    if ops == [] then s else DoOps(DoOp(s, ops[0]), ops[1..])
  }

  /** A timer is registered for the date it was set to last, and no more once it has been cancelled, or was not set again
      when it fired; other timers are not touched. */
  lemma WhatIsRegistered(s: Sys, t: Timer, d: Date, u: Timer)
    ensures Registered(DoOp(s, Set(t, d)), t) && DoOp(s, Set(t, d)).nd[t] == d
    ensures !Registered(DoOp(s, Rearm(t, None)), t) && DoOp(s, Rearm(t, None)).pending == s.pending
    ensures DoOp(s, Rearm(t, Some(d))) == DoOp(s, Set(t, d))
    ensures var s' := DoOp(s, Cancel(t));
      !Registered(s', t) && (Registered(s, t) ==> s'.pending == s.pending - {(t, s.nd[t])}) && (!Registered(s, t) ==> s' == s)
    ensures u != t ==> (Registered(DoOp(s, Set(t, d)), u) <==> Registered(s, u))
    ensures u != t ==> (Registered(DoOp(s, Cancel(t)), u) <==> Registered(s, u))
  {
  }

  /** Taking out the timers of a date, and firing one of them. */
  datatype Event = Take(date: Date) | Fire(due: Due)

  function Behaves(s: Sys): Behaviour {
    if s.script == [] then IDLE else s.script[0]
  }

  function Rest(s: Sys): seq<Behaviour> {
    if s.script == [] then [] else s.script[1..]
  }

  function At(pending: set<Due>, d: Date): set<Due> {
    set x | x in pending && x.1 == d
  }

  /** Only the earliest date, only once it has come, and only when the batch before it is done. */
  predicate Allowed(s: Sys, e: Event, now: Date) {
    match e
    case Take(d) => s.batch == {} && d <= now && At(s.pending, d) != {} && forall x :: x in s.pending ==> d <= x.1
    case Fire(x) => x in s.batch
  }

  function Next(s: Sys, e: Event): Sys {
    match e
    case Take(d) => s.(batch := At(s.pending, d), pending := s.pending - At(s.pending, d))
    case Fire(x) =>
      var s' := s.(batch := s.batch - {x}, script := Rest(s));
      Rearmed(DoOps(s', Behaves(s).ops), x.0, Behaves(s).next)
  }

  predicate Trace(s: Sys, es: seq<Event>, now: Date)
    decreases es
  {
    es == [] || (Allowed(s, es[0], now) && Trace(Next(s, es[0]), es[1..], now))
  }

  function End(s: Sys, es: seq<Event>): Sys
    decreases es
  {
    if es == [] then s else End(Next(s, es[0]), es[1..])
  }

  /* ---- What such traces keep ---- */

  function One(b: bool): nat { if b then 1 else 0 }

  function Present(s: Sys, x: Due): nat { One(x in s.pending) + One(x in s.batch) }

  function Fires(es: seq<Event>, x: Due): nat {
    if es == [] then 0 else One(es[0] == Fire(x)) + Fires(es[1..], x)
  }

  /** The date x is set, without being set already: once more to fire. */
  predicate Arms(s: Sys, t: Timer, next: Option<Date>, x: Due) {
    next == Some(x.1) && t == x.0 && x !in s.pending
  }

  function ArmsByOp(s: Sys, op: Op, x: Due): nat {
    match op
    case Set(t, d) => One(Arms(s, t, Some(d), x))
    case Rearm(t, next) => One(Arms(s, t, next, x))
    case Cancel(_) => 0
  }

  function CancelsByOp(s: Sys, op: Op, x: Due): nat {
    One(op == Cancel(x.0) && Registered(s, x.0) && s.nd[x.0] == x.1)
  }

  function ArmsByOps(s: Sys, ops: seq<Op>, x: Due): nat
    decreases ops
  {
    if ops == [] then 0 else ArmsByOp(s, ops[0], x) + ArmsByOps(DoOp(s, ops[0]), ops[1..], x)
  }

  function CancelsByOps(s: Sys, ops: seq<Op>, x: Due): nat
    decreases ops
  {
    if ops == [] then 0 else CancelsByOp(s, ops[0], x) + CancelsByOps(DoOp(s, ops[0]), ops[1..], x)
  }

  /** Where the callback starts. */
  function Fired(s: Sys, x: Due): Sys {
    s.(batch := s.batch - {x}, script := Rest(s))
  }

  function ArmsBy(s: Sys, e: Event, x: Due): nat {
    match e
    case Take(_) => 0
    case Fire(y) =>
      ArmsByOps(Fired(s, y), Behaves(s).ops, x) +
      One(Arms(DoOps(Fired(s, y), Behaves(s).ops), y.0, Behaves(s).next, x))
  }

  function CancelsBy(s: Sys, e: Event, x: Due): nat {
    match e
    case Take(_) => 0
    case Fire(y) => CancelsByOps(Fired(s, y), Behaves(s).ops, x)
  }

  /** How often x is set, and how often cancelled, in a trace. */
  function Armings(s: Sys, es: seq<Event>, x: Due): nat
    decreases es
  {
    if es == [] then 0 else ArmsBy(s, es[0], x) + Armings(Next(s, es[0]), es[1..], x)
  }

  function Cancels(s: Sys, es: seq<Event>, x: Due): nat
    decreases es
  {
    if es == [] then 0 else CancelsBy(s, es[0], x) + Cancels(Next(s, es[0]), es[1..], x)
  }

  lemma {:induction false} OpsBalance(s: Sys, ops: seq<Op>, x: Due)
    ensures Present(DoOps(s, ops), x) + CancelsByOps(s, ops, x) == Present(s, x) + ArmsByOps(s, ops, x)
    ensures DoOps(s, ops).batch == s.batch && DoOps(s, ops).script == s.script
    decreases ops
  {
    if ops != [] {
      OpsBalance(DoOp(s, ops[0]), ops[1..], x);
    }
  }

  /** Nothing is lost and nothing fires twice: what is set fires once, unless it is cancelled or still pending. */
  lemma {:induction false} Balance(s: Sys, es: seq<Event>, now: Date, x: Due)
    requires Trace(s, es, now)
    ensures Present(End(s, es), x) + Fires(es, x) + Cancels(s, es, x) == Present(s, x) + Armings(s, es, x)
    decreases es
  {
    if es != [] {
      if es[0].Fire? {
        OpsBalance(Fired(s, es[0].due), Behaves(s).ops, x);
      }
      Balance(Next(s, es[0]), es[1..], now, x);
    }
  }

  /** Every date taken out together is the same, and has come. */
  predicate OneDate(s: Sys, now: Date) {
    forall x, y :: x in s.batch && y in s.batch ==> x.1 == y.1 && x.1 <= now
  }

  lemma NextOneDate(s: Sys, e: Event, now: Date)
    requires Allowed(s, e, now) && OneDate(s, now)
    ensures OneDate(Next(s, e), now)
  {
    if e.Fire? {
      OpsBalance(Fired(s, e.due), Behaves(s).ops, e.due);
    }
  }

  /** No timer fires early. */
  lemma {:induction false} NotEarly(s: Sys, es: seq<Event>, now: Date, i: nat)
    requires Trace(s, es, now) && OneDate(s, now) && i < |es| && es[i].Fire?
    ensures es[i].due.1 <= now
    decreases es
  {
    NextOneDate(s, es[0], now);
    if i > 0 {
      NotEarly(Next(s, es[0]), es[1..], now, i - 1);
    }
  }

  /** x is not earlier than the batch, if it is pending. */
  predicate NotBehind(s: Sys, x: Due) {
    x in s.pending ==> forall y :: y in s.batch ==> y.1 <= x.1
  }

  lemma NextNotBehind(s: Sys, e: Event, now: Date, x: Due)
    requires Allowed(s, e, now) && NotBehind(s, x) && ArmsBy(s, e, x) == 0
    ensures NotBehind(Next(s, e), x)
  {
    if e.Fire? {
      OpsBalance(Fired(s, e.due), Behaves(s).ops, x);
    }
  }

  /** Timers fire in the order of their dates: once one has fired, no earlier one does, unless it was set meanwhile. */
  lemma {:induction false} InDateOrder(s: Sys, es: seq<Event>, now: Date, i: nat, j: nat)
    requires Trace(s, es, now) && OneDate(s, now)
    requires i < j < |es| && es[i].Fire? && es[j].Fire?
    requires NotBehind(s, es[j].due) && Armings(s, es, es[j].due) == 0
    ensures es[i].due.1 <= es[j].due.1
    decreases es
  {
    var x := es[j].due;
    if i > 0 {
      NextOneDate(s, es[0], now);
      NextNotBehind(s, es[0], now, x);
      InDateOrder(Next(s, es[0]), es[1..], now, i - 1, j - 1);
    } else {
      Behind(s, es, now, x, j);
    }
  }

  lemma Behind(s: Sys, es: seq<Event>, now: Date, x: Due, j: nat)
    requires Trace(s, es, now) && OneDate(s, now)
    requires j < |es| && es[j] == Fire(x)
    ensures Present(s, x) + Armings(s, es, x) > 0
  {
    Balance(s, es, now, x);
    FiresAt(es, x, j);
  }

  lemma {:induction false} FiresAt(es: seq<Event>, x: Due, j: nat)
    requires j < |es| && es[j] == Fire(x)
    ensures Fires(es, x) > 0
  {
    if j > 0 {
      FiresAt(es[1..], x, j - 1);
    }
  }

  /** After a whole step, a timer that was due fired exactly once, if callbacks neither set nor cancelled it; one that
      is not pending, having been cancelled before, did not fire. */
  lemma DueFiresOnce(s: Sys, es: seq<Event>, now: Date, x: Due)
    requires Trace(s, es, now) && s.batch == {}
    requires End(s, es).batch == {} && forall y :: y in End(s, es).pending ==> y.1 > now
    requires Armings(s, es, x) == 0 && Cancels(s, es, x) == 0
    ensures x.1 <= now ==> Fires(es, x) == One(x in s.pending)
    ensures x.1 > now ==> Fires(es, x) == 0 && (x in End(s, es).pending <==> x in s.pending)
  {
    Balance(s, es, now, x);
    if x.1 > now && Fires(es, x) > 0 {
      var i := FireIndex(es, x);
      NotEarly(s, es, now, i);
    }
  }

  lemma {:induction false} FireIndex(es: seq<Event>, x: Due) returns (i: nat)
    requires Fires(es, x) > 0
    ensures i < |es| && es[i] == Fire(x)
  {
    if es[0] == Fire(x) {
      i := 0;
    } else {
      i := FireIndex(es[1..], x);
      i := i + 1;
    }
  }

  /* ---- The fast form ---- */

  predicate Sorted(dates: seq<Date>) {
    forall i, j :: 0 <= i < j < |dates| ==> dates[i] <= dates[j]
  }

  type Table = map<Date, set<Timer>>

  ghost function PendingIn(events: Table): set<Due> {
    set d, t | d in events && t in events[d] :: (t, d)
  }

  function Entries(events: Table, d: Date): set<Timer> {
    if d in events then events[d] else {}
  }

  ghost function DueAt(timers: set<Timer>, d: Date): set<Due> {
    set t | t in timers :: (t, d)
  }

  lemma InPending(events: Table, x: Due)
    ensures x in PendingIn(events) <==> x.1 in events && x.0 in events[x.1]
  {
    var t, d := x.0, x.1;
    assert x == (t, d);
    if d in events && t in events[d] {
      assert (t, d) in PendingIn(events);
    }
  }

  lemma AddPending(events: Table, d: Date, t: Timer)
    ensures PendingIn(events[d := Entries(events, d) + {t}]) == PendingIn(events) + {(t, d)}
  {
  }

  function Dropped(events: Table, d: Date, t: Timer): Table {
    var entries := Entries(events, d) - {t};
    if entries == {} then events - {d} else events[d := entries]
  }

  lemma DropPending(events: Table, d: Date, t: Timer)
    ensures PendingIn(Dropped(events, d, t)) == PendingIn(events) - {(t, d)}
  {
    var after := Dropped(events, d, t);
    forall x: Due ensures x in PendingIn(after) <==> x in PendingIn(events) - {(t, d)} {
      InPending(after, x);
      InPending(events, x);
      assert x == (t, d) <==> x.0 == t && x.1 == d;
      assert x.1 == d && d in events ==> (x.0 in Entries(events, d) - {t} <==> x.0 in events[d] && x.0 != t);
    }
  }

  lemma TakePending(events: Table, d: Date)
    requires d in events && events[d] != {}
    ensures At(PendingIn(events), d) == DueAt(events[d], d) != {}
    ensures PendingIn(events - {d}) == PendingIn(events) - At(PendingIn(events), d)
  {
    var t :| t in events[d];
    assert (t, d) in DueAt(events[d], d);
    forall x: Due ensures x in PendingIn(events - {d}) <==> x in PendingIn(events) - At(PendingIn(events), d) {
      InPending(events - {d}, x);
      InPending(events, x);
    }
  }

  function Inserted(dates: seq<Date>, n: nat, d: Date): seq<Date>
    requires n <= |dates|
  {
    dates[..n] + [d] + dates[n..]
  }

  lemma InsertSorted(dates: seq<Date>, n: nat, d: Date)
    requires Sorted(dates) && n <= |dates|
    requires (forall i :: 0 <= i < n ==> dates[i] <= d) && (n < |dates| ==> d <= dates[n])
    ensures Sorted(Inserted(dates, n, d)) && d in Inserted(dates, n, d)
    ensures forall x :: x in dates ==> x in Inserted(dates, n, d)
  {
    assert dates == dates[..n] + dates[n..];
  }

  /** The list covers the table and is in order. */
  predicate Covers(dates: seq<Date>, events: Table) {
    Sorted(dates) && forall d :: d in events ==> d in dates && events[d] != {}
  }

  lemma FirstIsEarliest(dates: seq<Date>, events: Table)
    requires Covers(dates, events) && dates != []
    ensures forall x :: x in PendingIn(events) ==> dates[0] <= x.1
    ensures dates[0] !in events ==> Covers(dates[1..], events)
    ensures dates[0] in events ==> events[dates[0]] != {}
    ensures Covers(dates[1..], events - {dates[0]})
  {
    assert dates == [dates[0]] + dates[1..];
  }

  lemma NothingLeft(events: Table)
    requires Covers([], events)
    ensures PendingIn(events) == {}
  {
  }

  /** A date in the list without timers, or there twice, is stale. */
  predicate Strays(dates: seq<Date>, events: Table, stale: set<Date>) {
    && (forall d :: d in dates ==> d in events || d in stale)
    && (forall i, j :: 0 <= i < j < |dates| && dates[i] == dates[j] ==> dates[i] in stale)
  }

  lemma StraysTaken(dates: seq<Date>, events: Table, stale: set<Date>)
    requires dates != [] && Strays(dates, events, stale)
    ensures Strays(dates[1..], events - {dates[0]}, stale)
    ensures dates[0] !in events ==> Strays(dates[1..], events, stale)
  {
    forall d | d in dates[1..] ensures d in events - {dates[0]} || d in stale {
      var j :| 0 <= j < |dates[1..]| && dates[1..][j] == d;
      assert dates[j + 1] == d;
    }
  }

  lemma StraysInserted(dates: seq<Date>, n: nat, d: Date, events: Table, stale: set<Date>, t: Timer)
    requires n <= |dates| && d !in events && Strays(dates, events, stale)
    ensures Strays(Inserted(dates, n, d), events[d := {t}], stale)
  {
    var ds := Inserted(dates, n, d);
    forall i, j | 0 <= i < j < |ds| && ds[i] == ds[j] ensures ds[i] in stale {
      if i == n {
        assert ds[j] == dates[j - 1];
      } else if j == n {
        assert ds[i] == dates[i];
      } else {
        assert dates[if i < n then i else i - 1] == dates[if j < n then j else j - 1];
      }
    }
  }

  predicate NoCancel(ops: seq<Op>) {
    forall i :: 0 <= i < |ops| ==> !ops[i].Cancel?
  }

  /** No callback removes a timer. */
  predicate NeverCancel(script: seq<Behaviour>) {
    forall i :: 0 <= i < |script| ==> NoCancel(script[i].ops)
  }

  lemma SomeTimer(events: Table, d: Date)
    requires d in events && events[d] != {}
    ensures exists t :: (t, d) in PendingIn(events)
  {
    var t :| t in events[d];
    assert (t, d) in PendingIn(events);
  }

  /** events: the list part and the hash part, and the field nd of the timers. A date can stay in the list when its
      timers have gone. */
  class TimerQueue {
    var dates: seq<Date>
    var events: Table
    var nd: map<Timer, Date>
    /** Dates that may be in the list without timers: those from which the last one has been removed. */
    ghost var stale: set<Date>

    ghost predicate Valid()
      reads this
    {
      Covers(dates, events) && Strays(dates, events, stale)
    }

    /** As the simple form sees it. */
    ghost function Now(batch: set<Due>, script: seq<Behaviour>): Sys
      reads this
    {
      Sys(PendingIn(events), nd, batch, script)
    }

    constructor ()
      ensures Valid() && fresh(this) && Now({}, []) == Sys({}, map[], {}, []) && stale == {}
    {
      dates, events, nd, stale := [], map[], map[], {};
    }

    /** addevent */
    method AddEvent(timer: Timer, d: Date)
      requires Valid()
      modifies this`dates, this`events
      ensures Valid() && PendingIn(events) == old(PendingIn(events)) + {(timer, d)}
    {
      hide PendingIn;
      AddPending(events, d, timer);
      if d in events {
        events := events[d := events[d] + {timer}];
      } else {
        var n := 0;
        while n < |dates| && dates[n] <= d
          invariant n <= |dates| && forall i :: 0 <= i < n ==> dates[i] <= d
        {
          n := n + 1;
        }
        InsertSorted(dates, n, d);
        StraysInserted(dates, n, d, events, stale, timer);
        dates := Inserted(dates, n, d);
        assert {} + {timer} == {timer};
        events := events[d := {timer}];
      }
    }

    /** addtimer; next is what the timer's nextevent returns. */
    method AddTimer(timer: Timer, next: Option<Date>, ghost batch: set<Due>, ghost script: seq<Behaviour>)
      requires Valid()
      modifies this
      ensures Valid() && Now(batch, script) == Rearmed(old(Now(batch, script)), timer, next) && stale == old(stale)
      ensures next == None ==> dates == old(dates)
    {
      hide PendingIn;
      if next == None {
        nd := nd - {timer};
        return;
      }
      nd := nd[timer := next.value];
      AddEvent(timer, next.value);
    }

    /** removetimer: false stands for its error. */
    method RemoveTimer(timer: Timer, ghost batch: set<Due>, ghost script: seq<Behaviour>) returns (ok: bool)
      requires Valid()
      modifies this
      ensures Valid() && dates == old(dates) && ok == Registered(old(Now(batch, script)), timer)
      ensures Now(batch, script) == Cancelled(old(Now(batch, script)), timer)
      ensures stale == old(stale) + if ok && old(events[nd[timer]]) == {timer} then {old(nd[timer])} else {}
    {
      if timer !in nd || nd[timer] !in events || timer !in events[nd[timer]] { return false; }
      DropPending(events, nd[timer], timer);
      if events[nd[timer]] == {timer} { stale := stale + {nd[timer]}; }
      events := Dropped(events, nd[timer], timer);
      nd := nd - {timer};
      return true;
    }

    /** set: a delay in the past counts as 0. */
    method SetTimer(timer: Timer, time: Date, delay: real, ghost batch: set<Due>, ghost script: seq<Behaviour>)
      requires Valid()
      modifies this
      ensures Valid() && stale == old(stale)
      ensures Now(batch, script) ==
              DoOp(old(Now(batch, script)), Set(timer, time + if delay > 0.0 then delay else 0.0))
    {
      hide PendingIn;
      var d := time + if delay > 0.0 then delay else 0.0;
      nd := nd[timer := d];
      AddEvent(timer, d);
    }

    /** nextevent: the date of the first timers due, or one at which the last timer has been removed; nothing is pending
        before it, and nothing at all when there is none. */
    method NextEvent() returns (next: Option<Date>)
      requires Valid()
      ensures next == None ==> PendingIn(events) == {}
      ensures next.Some? ==> forall x :: x in PendingIn(events) ==> next.value <= x.1
      ensures next.Some? ==> (exists t :: (t, next.value) in PendingIn(events)) || next.value in stale
    {
      if dates == [] { return None; }
      FirstIsEarliest(dates, events);
      next := Some(dates[0]);
      if dates[0] in events {
        SomeTimer(events, dates[0]);
      } else {
        assert dates[0] in dates;
      }
    }

    method RunOps(ops: seq<Op>, ghost batch: set<Due>, ghost script: seq<Behaviour>)
      requires Valid()
      modifies this
      ensures Valid() && Now(batch, script) == DoOps(old(Now(batch, script)), ops)
      ensures ops == [] ==> dates == old(dates)
      ensures NoCancel(ops) ==> stale == old(stale)
    {
      hide PendingIn;
      ghost var total := DoOps(Now(batch, script), ops);
      for i := 0 to |ops|
        invariant Valid() && DoOps(Now(batch, script), ops[i..]) == total
        invariant ops == [] ==> dates == old(dates)
        invariant NoCancel(ops) ==> stale == old(stale)
      {
        assert ops[i..][1..] == ops[i + 1..];
        match ops[i] {
          case Set(t, d) => SetTimer(t, d, 0.0, batch, script);
          case Rearm(t, next) => AddTimer(t, next, batch, script);
          case Cancel(t) => var ok := RemoveTimer(t, batch, script);
        }
      }
    }

    /** One timer of a batch: its callback, then addtimer. */
    method FireOne(timer: Timer, d: Date, script: seq<Behaviour>, ghost batch: set<Due>) returns (left: seq<Behaviour>)
      requires Valid() && (timer, d) in batch
      modifies this
      ensures Valid()
      ensures Now(batch - {(timer, d)}, left) == Next(old(Now(batch, script)), Fire((timer, d)))
      ensures |left| < |script| || (left == script && dates == old(dates))
      ensures NeverCancel(script) ==> NeverCancel(left) && stale == old(stale)
    {
      hide PendingIn;
      var does := if script == [] then IDLE else script[0];
      left := if script == [] then [] else script[1..];
      ghost var now := Now(batch, script);
      assert Fired(now, (timer, d)) == Now(batch - {(timer, d)}, left);
      RunOps(does.ops, batch - {(timer, d)}, left);
      AddTimer(timer, does.next, batch - {(timer, d)}, left);
    }

    /** The timers of one date, in any order. */
    method FireAll(d: Date, due: set<Timer>, script: seq<Behaviour>, now: Date, ghost first: Sys, ghost before: seq<Event>)
      returns (left: seq<Behaviour>, ghost es: seq<Event>)
      requires Valid() && Trace(first, before, now) && End(first, before) == Now(DueAt(due, d), script)
      modifies this
      ensures Valid() && Trace(first, es, now) && End(first, es) == Now({}, left)
      ensures |left| < |script| || (left == script && dates == old(dates))
      ensures NeverCancel(script) ==> NeverCancel(left) && stale == old(stale)
    {
      hide PendingIn, Trace, End, NeverCancel;
      var entries := due;
      left, es := script, before;
      while entries != {}
        invariant Valid() && Trace(first, es, now) && End(first, es) == Now(DueAt(entries, d), left)
        invariant |left| < |script| || (left == script && dates == old(dates))
        invariant NeverCancel(script) ==> NeverCancel(left) && stale == old(stale)
        decreases |entries|
      {
        var timer :| timer in entries;
        ghost var batch := DueAt(entries, d);
        Append(first, es, Fire((timer, d)), now);
        es := es + [Fire((timer, d))];
        left := FireOne(timer, d, left, batch);
        entries := entries - {timer};
        assert DueAt(entries, d) == batch - {(timer, d)};
      }
      assert DueAt({}, d) == {};
    }

    /** step at time now. What it fires, in which order, is a trace of the simple form, at whose end nothing due is left;
        left are the behaviours of the callbacks that did not run. */
    method Step(now: Date, script: seq<Behaviour>) returns (left: seq<Behaviour>, ghost es: seq<Event>)
      requires Valid()
      modifies this
      ensures Valid() && forall x :: x in PendingIn(events) ==> x.1 > now
      ensures Trace(old(Now({}, script)), es, now) && End(old(Now({}, script)), es) == Now({}, left)
      ensures NeverCancel(script) ==> stale == old(stale)
    {
      hide PendingIn, Covers, NeverCancel, Strays;
      left, es := script, [];
      ghost var first := Now({}, script);
      while dates != [] && now >= dates[0]
        invariant Valid() && Trace(first, es, now) && End(first, es) == Now({}, left)
        invariant NeverCancel(script) ==> NeverCancel(left) && stale == old(stale)
        decreases |left|, |dates|
      {
        var d := dates[0];
        FirstIsEarliest(dates, events);
        StraysTaken(dates, events, stale);
        dates := dates[1..];
        if d in events {
          var entries := events[d];
          TakePending(events, d);
          Append(first, es, Take(d), now);
          events := events - {d};
          left, es := FireAll(d, entries, left, now, first, es + [Take(d)]);
        }
      }
      if dates == [] {
        assert PendingIn(events) == {} by { NothingLeft(events); }
      } else {
        FirstIsEarliest(dates, events);
      }
    }
  }

  /** A trace goes on at its end. */
  lemma {:induction false} Append(s: Sys, es: seq<Event>, e: Event, now: Date)
    requires Trace(s, es, now) && Allowed(End(s, es), e, now)
    ensures Trace(s, es + [e], now) && End(s, es + [e]) == Next(End(s, es), e)
    decreases es
  {
    if es == [] {
      assert End(Next(s, e), []) == Next(s, e);
    } else {
      assert (es + [e])[1..] == es[1..] + [e];
      Append(Next(s, es[0]), es[1..], e, now);
    }
  }
}
