/** What a signal does to the hooks: each registration is run once, and a hook that is spent or killed never again. */
module SchedHooks {
  import opened Bytes
  import opened SchedModel
  import opened SchedConservation
  import opened SchedQueues

  function Times(q: seq<CellId>, c: CellId): nat { multiset(q)[c] }

  function RunsOf(s: State, c: CellId): nat { Times(s.log, c) }

  /** No hook signals, in turn, an emitter whose signal is being processed. */
  predicate Polite(effect: Effect, busy: set<Emitter>)
    decreases effect
  {
    effect.Emit? ==>
      && effect.emitter !in busy
      && AllPolite(effect.star, busy + {effect.emitter}) && AllPolite(effect.named, busy + {effect.emitter})
  }

  predicate ScriptPolite(script: Script, busy: set<Emitter>)
    decreases script
  {
    script.Do? ==> Polite(script.effect, busy) && ScriptPolite(script.next, busy)
  }

  predicate AllPolite(runs: Scripts, busy: set<Emitter>)
    decreases runs
  {
    runs.Next? ==> ScriptPolite(runs.body, busy) && AllPolite(runs.rest, busy)
  }

  /** Something that is done in turn may kill hook c; a hook that kills itself may be c. */
  predicate MayKill(effect: Effect, c: CellId)
    decreases effect
  {
    effect == KillHook(c) || (effect.Emit? && (AnyMayKill(effect.star, c) || AnyMayKill(effect.named, c)))
  }

  predicate ScriptMayKill(script: Script, c: CellId)
    decreases script
  {
    script.Do? && (MayKill(script.effect, c) || ScriptMayKill(script.next, c))
  }

  predicate AnyMayKill(runs: Scripts, c: CellId)
    decreases runs
  {
    runs.Next? && (ScriptMayKill(runs.body, c) || runs.ends.KillsItself? || AnyMayKill(runs.rest, c))
  }

  /** Cell c is a hook that sits in queues of e only. */
  ghost predicate HooksOn(s: State, c: CellId, e: Emitter) {
    CellOf(s, c).Hook? && forall p {:trigger Queue(s.waiting, p)} :: c in Queue(s.waiting, p) ==> p.emitter == e
  }

  /** Cell c is a hook that sits in queues of these places only. */
  ghost predicate HooksAt(s: State, c: CellId, at: set<Place>) {
    CellOf(s, c).Hook? && forall p {:trigger Queue(s.waiting, p)} :: c in Queue(s.waiting, p) ==> p in at
  }

  /** c was not run, and if it is still there it is registered as before. */
  ghost predicate Undisturbed(s: State, s': State, c: CellId) {
    && RunsOf(s', c) == RunsOf(s, c)
    && c < |s'.cells| && (CellOf(s', c) == CellOf(s, c) || !Full(s', c))
    && (Full(s', c) ==> forall p {:trigger Queue(s'.waiting, p)} ::
          Times(Queue(s'.waiting, p), c) == Times(Queue(s.waiting, p), c))
  }

  lemma {:induction false} TimesKept(s: State, q: seq<CellId>, c: CellId)
    requires !Collectable(s, c)
    ensures Times(Kept(s, q), c) == Times(q, c)
  {
    if q != [] {
      TimesKept(s, q[1..], c);
      assert q == [q[0]] + q[1..];
    }
  }

  lemma {:induction false} TimesAppendedAll(w: Table, places: seq<Place>, x: CellId, c: CellId, p: Place)
    requires x != c
    ensures Times(Queue(AppendedAll(w, places, x), p), c) == Times(Queue(w, p), c)
    decreases places
  {
    if places != [] {
      TimesAppendedAll(Appended(w, places[0], x), places[1..], x, c, p);
    }
  }

  lemma {:induction false} TimesRegisteredAll(w: Table, es: seq<Emitter>, entries: seq<Entry>, x: CellId, c: CellId, p: Place)
    requires x != c
    ensures Times(Queue(RegisteredAll(w, es, entries, x), p), c) == Times(Queue(w, p), c)
    decreases es
  {
    if es != [] {
      TimesAppendedAll(Opened(w, es[0]), Places(es[0], entries), x, c, p);
      if Delays(entries) <= 1 {
        TimesRegisteredAll(Registered(w, es[0], entries, x), es[1..], entries, x, c, p);
      }
    }
  }

  lemma StillHooks(s: State, s': State, c: CellId, e: Emitter)
    requires HooksOn(s, c, e) && Undisturbed(s, s', c)
    ensures Full(s', c) ==> HooksOn(s', c, e)
  {
    if Full(s', c) {
      forall p: Place | c in Queue(s'.waiting, p) ensures p.emitter == e {
        assert Times(Queue(s'.waiting, p), c) > 0;
      }
    }
  }

  lemma Twice(s: State, s': State, s'': State, c: CellId)
    requires Undisturbed(s, s', c) && Undisturbed(s', s'', c)
    ensures Undisturbed(s, s'', c)
  {
  }

  lemma Unqueued(s: State, s': State, c: CellId)
    requires c < |s.cells| && s' == s.(cells := s'.cells, ready := s'.ready, processing := s'.processing, log := s'.log,
                                         stuck := s'.stuck, spares := s'.spares)
    requires c < |s'.cells| && (CellOf(s', c) == CellOf(s, c) || !Full(s', c)) && RunsOf(s', c) == RunsOf(s, c)
    ensures Undisturbed(s, s', c)
  {
  }

  lemma TimesAppended(w: Table, p: Place, x: CellId, at: Place, c: CellId)
    ensures Times(Queue(Appended(w, p, x), at), c) == Times(Queue(w, at), c) + One(at == p && x == c)
  {
    assert Queue(Appended(w, p, x), at) == if at == p then Queue(w, at) + [x] else Queue(w, at);
  }

  lemma OtherHook(s: State, p: Place, x: CellId, ends: Ending, c: CellId)
    requires c < |s.cells| && x != c
    ensures Undisturbed(s, AfterHook(s, p, x, ends), c)
  {
    hide Times, Appended;
    var s' := AfterHook(s, p, x, ends);
    forall at: Place ensures Times(Queue(s'.waiting, at), c) == Times(Queue(s.waiting, at), c) {
      TimesAppended(s.waiting, p, x, at, c);
    }
  }

  lemma {:induction false} RunQueueUndisturbed(s: State, p: Place, ev: Event, q: seq<CellId>, woken: seq<Wake>,
                                               runs: Scripts, c: CellId, at: set<Place>)
    requires c < |s.cells|
    requires Full(s, c) ==> HooksAt(s, c, at) && c !in q && !AnyTouches(runs, at)
    ensures Undisturbed(s, RunQueue(s, p, ev, q, woken, runs).state, c)
    ensures Full(s, c) && !AnyMayKill(runs, c) ==> Full(RunQueue(s, p, ev, q, woken, runs).state, c)
    decreases runs, |q|, 0
  {
    hide Undisturbed, HooksAt;
    if q == [] {
      Unqueued(s, s, c);
    } else {
      var x := q[0];
      match CellOf(s, x) {
        case Empty => RunQueueUndisturbed(s, p, ev, q[1..], woken, runs, c, at);
        case Waiter(_, _, _) =>
          var s1 := Emptied(s, x);
          Unqueued(s, s1, c);
          StaysAt(s, s1, c, at);
          RunQueueUndisturbed(s1, p, ev, q[1..], woken + [WakeFor(CellOf(s, x), p.emitter, ev)], runs, c, at);
          Twice(s, s1, RunQueue(s, p, ev, q, woken, runs).state, c);
        case Hook(_, _) =>
          var s1 := s.(log := s.log + [x]);
          Unqueued(s, s1, c);
          StaysAt(s, s1, c, at);
          match runs {
            case NoMore =>
              var s2 := AfterHook(s1, p, x, Returns);
              OtherHook(s1, p, x, Returns, c);
              Twice(s, s1, s2, c);
              StaysAt(s, s2, c, at);
              RunQueueUndisturbed(s2, p, ev, q[1..], woken, NoMore, c, at);
              Twice(s, s2, RunQueue(s, p, ev, q, woken, runs).state, c);
            case Next(body, ends, rest) =>
              var s2 := Perform(s1, body);
              PerformUndisturbed(s1, body, c, at);
              Twice(s, s1, s2, c);
              var s3 := AfterHook(s2, p, x, ends);
              OtherHook(s2, p, x, ends, c);
              Twice(s, s2, s3, c);
              StaysAt(s, s3, c, at);
              RunQueueUndisturbed(s3, p, ev, q[1..], woken, rest, c, at);
              Twice(s, s3, RunQueue(s, p, ev, q, woken, runs).state, c);
          }
      }
    }
  }

  lemma StaysAt(s: State, s': State, c: CellId, at: set<Place>)
    requires Undisturbed(s, s', c)
    ensures RunsOf(s', c) == RunsOf(s, c) && c < |s'.cells|
    ensures CellOf(s', c) == CellOf(s, c) || !Full(s', c)
    ensures (Full(s, c) ==> HooksAt(s, c, at)) ==> (Full(s', c) ==> HooksAt(s', c, at))
  {
    if Full(s, c) && HooksAt(s, c, at) {
      StillAt(s, s', c, at);
    }
  }

  lemma ParseUndisturbed(s: State, p: Place, ev: Event, woken: seq<Wake>, runs: Scripts, c: CellId,
                         at: set<Place>)
    requires c < |s.cells|
    requires Full(s, c) ==> HooksAt(s, c, at) && p !in at && !AnyTouches(runs, at)
    ensures Undisturbed(s, Parse(s, p, ev, woken, runs).state, c)
    ensures Full(s, c) && !AnyMayKill(runs, c) ==> Full(Parse(s, p, ev, woken, runs).state, c)
    decreases runs, |Queue(s.waiting, p)|, 1
  {
    if p.event in RowsOf(s.waiting, p.emitter) {
      var s1 := s.(waiting := Put(s.waiting, p, []));
      forall x: Place ensures Queue(s1.waiting, x) == if x == p then [] else Queue(s.waiting, x) {
      }
      RunQueueUndisturbed(s1, p, ev, Queue(s.waiting, p), woken, runs, c, at);
      var a := RunQueue(s1, p, ev, Queue(s.waiting, p), woken, runs).state;
      forall x: Place ensures Queue(Tidied(a.waiting, p), x) == Queue(a.waiting, x) {
        TidiedQueue(a.waiting, p, x);
      }
    }
  }

  lemma ApplyUndisturbed(s: State, effect: Effect, c: CellId, at: set<Place>)
    requires c < |s.cells|
    requires Full(s, c) ==> HooksAt(s, c, at) && !Touches(effect, at)
    ensures Undisturbed(s, Apply(s, effect), c)
    ensures Full(s, c) && !MayKill(effect, c) ==> Full(Apply(s, effect), c)
    decreases effect, 0, 3
  {
    var s' := Apply(s, effect);
    match effect {
      case Spawn =>
      case AddHook(e, entries, once) =>
        forall p: Place ensures Times(Queue(s'.waiting, p), c) == Times(Queue(s.waiting, p), c) {
          TimesRegisteredAll(s.waiting, [e], entries, |s.cells|, c, p);
        }
      case KillHook(x) => Unqueued(s, s', c);
      case Collect =>
        if Full(s, c) {
          forall p: Place ensures Times(Queue(s'.waiting, p), c) == Times(Queue(s.waiting, p), c) {
            CollectedQueue(s, p);
            TimesKept(s, Queue(s.waiting, p), c);
          }
        }
      case Emit(e, ev, star, named) =>
        if e in s.waiting {
          EmitUndisturbed(s, e, ev, star, named, c, at);
        }
      case LateWait(es, entries, multi) =>
        forall p: Place ensures Times(Queue(s'.waiting, p), c) == Times(Queue(s.waiting, p), c) {
          TimesRegisteredAll(s.waiting, es, entries, |s.cells|, c, p);
        }
      case LateYield => Unqueued(s, s', c);
    }
  }

  lemma EmitUndisturbed(s: State, e: Emitter, ev: Event, star: Scripts, named: Scripts, c: CellId,
                        at: set<Place>)
    requires c < |s.cells| && e in s.waiting
    requires Full(s, c) ==> HooksAt(s, c, at) && !Touches(Emit(e, ev, star, named), at)
    ensures Undisturbed(s, Apply(s, Emit(e, ev, star, named)), c)
    ensures Full(s, c) && !MayKill(Emit(e, ev, star, named), c) ==> Full(Apply(s, Emit(e, ev, star, named)), c)
    decreases Emit(e, ev, star, named), 0, 2
  {
    hide Undisturbed, HooksAt, Parse;
    var s1 := s.(processing := true);
    Unqueued(s, s1, c);
    StaysAt(s, s1, c, at);
    ParseUndisturbed(s1, Place(e, STAR), ev, [], star, c, at);
    var a := Parse(s1, Place(e, STAR), ev, [], star);
    Twice(s, s1, a.state, c);
    StaysAt(s, a.state, c, at);
    ParseUndisturbed(a.state, Place(e, ev), ev, a.woken, named, c, at);
    var b := Parse(a.state, Place(e, ev), ev, a.woken, named);
    Twice(s, a.state, b.state, c);
    StaysAt(s, b.state, c, at);
    var s' := b.state.(processing := s.processing, ready := b.state.ready + b.woken);
    Unqueued(b.state, s', c);
    Twice(s, b.state, s', c);
  }

  lemma {:induction false} PerformUndisturbed(s: State, script: Script, c: CellId, at: set<Place>)
    requires c < |s.cells|
    requires Full(s, c) ==> HooksAt(s, c, at) && !ScriptTouches(script, at)
    ensures Undisturbed(s, Perform(s, script), c)
    ensures Full(s, c) && !ScriptMayKill(script, c) ==> Full(Perform(s, script), c)
    decreases script, 0, 4
  {
    hide Undisturbed, HooksAt;
    match script {
      case Done => Unqueued(s, s, c);
      case Do(effect, next) =>
        ApplyUndisturbed(s, effect, c, at);
        StaysAt(s, Apply(s, effect), c, at);
        PerformUndisturbed(Apply(s, effect), next, c, at);
        Twice(s, Apply(s, effect), Perform(s, script), c);
    }
  }

  lemma StillAt(s: State, s': State, c: CellId, at: set<Place>)
    requires HooksAt(s, c, at) && Undisturbed(s, s', c)
    ensures Full(s', c) ==> HooksAt(s', c, at)
  {
    if Full(s', c) {
      forall p: Place | c in Queue(s'.waiting, p) ensures p in at {
        assert Times(Queue(s'.waiting, p), c) > 0;
      }
    }
  }

  lemma Going(s: State, s': State, c: CellId, e: Emitter)
    requires Undisturbed(s, s', c)
    ensures RunsOf(s', c) == RunsOf(s, c) && c < |s'.cells|
    ensures CellOf(s', c) == CellOf(s, c) || !Full(s', c)
    ensures (Full(s, c) ==> HooksOn(s, c, e)) ==> (Full(s', c) ==> HooksOn(s', c, e))
  {
    if Full(s, c) && HooksOn(s, c, e) {
      StillHooks(s, s', c, e);
    }
  }

  /* ---- Hooks that mind the emitters being signalled ---- */

  lemma {:induction false} PoliteSpares(effect: Effect, busy: set<Emitter>, at: set<Place>)
    requires Polite(effect, busy) && forall p :: p in at ==> p.emitter in busy
    ensures !Touches(effect, at)
    decreases effect
  {
    if effect.Emit? {
      AllPoliteSpare(effect.star, busy + {effect.emitter}, at);
      AllPoliteSpare(effect.named, busy + {effect.emitter}, at);
    }
  }

  lemma {:induction false} ScriptPoliteSpares(script: Script, busy: set<Emitter>, at: set<Place>)
    requires ScriptPolite(script, busy) && forall p :: p in at ==> p.emitter in busy
    ensures !ScriptTouches(script, at)
    decreases script
  {
    if script.Do? {
      PoliteSpares(script.effect, busy, at);
      ScriptPoliteSpares(script.next, busy, at);
    }
  }

  lemma {:induction false} AllPoliteSpare(runs: Scripts, busy: set<Emitter>, at: set<Place>)
    requires AllPolite(runs, busy) && forall p :: p in at ==> p.emitter in busy
    ensures !AnyTouches(runs, at)
    decreases runs
  {
    if runs.Next? {
      ScriptPoliteSpares(runs.body, busy, at);
      AllPoliteSpare(runs.rest, busy, at);
    }
  }

  /** Where c sits. */
  ghost function QueuesOf(w: Table, c: CellId): set<Place> {
    set e, ev | e in w && ev in w[e] && c in w[e][ev] :: Place(e, ev)
  }

  lemma PolitelyUndisturbed(s: State, body: Script, c: CellId, e: Emitter, busy: set<Emitter>)
    requires HooksOn(s, c, e) && ScriptPolite(body, busy) && e in busy
    ensures Undisturbed(s, Perform(s, body), c)
    ensures !ScriptMayKill(body, c) ==> Full(Perform(s, body), c)
  {
    var at := QueuesOf(s.waiting, c);
    forall p: Place | c in Queue(s.waiting, p) ensures p in at {
      assert p == Place(p.emitter, p.event);
    }
    forall p | p in at ensures p.emitter == e {
      assert c in Queue(s.waiting, p);
    }
    ScriptPoliteSpares(body, busy, at);
    PerformUndisturbed(s, body, c, at);
  }

  /* ---- The hooks of the emitter that is signalled ---- */

  /** While n registrations of hook c at p were run: a persistent hook ran n times and has its n registrations back,
      a hook with once ran at most once and is gone; only a kill can make it fewer. */
  ghost predicate Served(s: State, s': State, c: CellId, p: Place, n: nat, spared: bool)
    requires CellOf(s, c).Hook?
  {
    var ran, once := RunsOf(s', c) - RunsOf(s, c), CellOf(s, c).once;
    && c < |s'.cells| && (CellOf(s', c) == CellOf(s, c) || !Full(s', c))
    && 0 <= ran <= n && (once ==> ran <= 1)
    && (Full(s', c) ==> ran == n && (once ==> n == 0) && forall x {:trigger Queue(s'.waiting, x)} ::
          Times(Queue(s'.waiting, x), c) == Times(Queue(s.waiting, x), c) + if x == p then n else 0)
    && (spared ==> if once && n > 0 then ran == 1 && !Full(s', c) else Full(s', c))
  }

  lemma ServedTwice(s: State, s': State, s'': State, c: CellId, p: Place, k: nat, n: nat, spared: bool, spared': bool)
    requires CellOf(s, c).Hook? && Served(s, s', c, p, k, spared)
    requires if Full(s', c) then CellOf(s', c).Hook? && Served(s', s'', c, p, n, spared')
             else RunsOf(s'', c) == RunsOf(s', c) && c < |s''.cells| && !Full(s'', c)
    ensures Served(s, s'', c, p, k + n, spared && spared')
  {
  }

  lemma NotServed(s: State, s': State, c: CellId, p: Place, spared: bool)
    requires CellOf(s, c).Hook? && Undisturbed(s, s', c) && (spared ==> Full(s', c))
    ensures Served(s, s', c, p, 0, spared)
  {
  }

  lemma StillServed(s: State, s': State, c: CellId, p: Place, n: nat, spared: bool)
    requires HooksOn(s, c, p.emitter) && Served(s, s', c, p, n, spared)
    ensures Full(s', c) ==> HooksOn(s', c, p.emitter)
  {
    if Full(s', c) {
      forall x: Place | c in Queue(s'.waiting, x) ensures x.emitter == p.emitter {
        assert Times(Queue(s'.waiting, x), c) > 0;
      }
    }
  }

  /** c's own turn: it is run, and goes to the end of the new queue unless it is spent. */
  lemma OwnTurn(s: State, s': State, p: Place, c: CellId, ends: Ending, spared: bool)
    requires CellOf(s, c).Hook? && Undisturbed(s.(log := s.log + [c]), s', c) && (spared ==> Full(s', c))
    ensures Served(s, AfterHook(s', p, c, ends), c, p, 1, spared && !ends.KillsItself?)
  {
    hide Queue, Put, Appended;
    assert RunsOf(s.(log := s.log + [c]), c) == RunsOf(s, c) + 1;
    var s'' := AfterHook(s', p, c, ends);
    if Full(s', c) && !s'.cells[c].once && !ends.KillsItself? {
      forall x: Place ensures Times(Queue(s''.waiting, x), c) == Times(Queue(s.waiting, x), c) + if x == p then 1 else 0 {
        TimesAppended(s'.waiting, p, c, x, c);
      }
    } else {
      assert Full(s'', c) ==> CellOf(s', c) != CellOf(s, c);
    }
  }

  /** One entry of the queue: c's own, or another cell's. */
  lemma EntryServed(s: State, p: Place, ev: Event, x: CellId, body: Script, ends: Ending, c: CellId, busy: set<Emitter>)
    requires CellOf(s, c).Hook? && HooksOn(s, c, p.emitter) && p.emitter in busy && ScriptPolite(body, busy)
    ensures Served(s, AfterHook(Perform(s.(log := s.log + [x]), body), p, x, ends), c, p, One(x == c),
                   !ScriptMayKill(body, c) && !ends.KillsItself?)
  {
    hide Undisturbed, HooksOn, Served;
    var s1 := s.(log := s.log + [x]);
    assert HooksOn(s1, c, p.emitter) by { SameHooks(s, s1, c, p.emitter); }
    PolitelyUndisturbed(s1, body, c, p.emitter, busy);
    var s2 := Perform(s1, body);
    var spared := !ScriptMayKill(body, c);
    if x == c {
      OwnTurn(s, s2, p, c, ends, spared);
    } else {
      Unqueued(s, s1, c);
      Twice(s, s1, s2, c);
      Going(s, s2, c, p.emitter);
      var s3 := AfterHook(s2, p, x, ends);
      OtherHook(s2, p, x, ends, c);
      Going(s2, s3, c, p.emitter);
      Twice(s, s2, s3, c);
      NotServed(s, s3, c, p, spared && !ends.KillsItself?);
    }
  }

  lemma SameHooks(s: State, s': State, c: CellId, e: Emitter)
    requires HooksOn(s, c, e) && s'.cells == s.cells && s'.waiting == s.waiting
    ensures HooksOn(s', c, e)
  {
  }

  lemma {:induction false} RunQueueServes(s: State, p: Place, ev: Event, q: seq<CellId>, woken: seq<Wake>, runs: Scripts,
                                          c: CellId, busy: set<Emitter>)
    requires CellOf(s, c).Hook? && HooksOn(s, c, p.emitter) && p.emitter in busy && AllPolite(runs, busy)
    ensures Served(s, RunQueue(s, p, ev, q, woken, runs).state, c, p, Times(q, c), !AnyMayKill(runs, c))
    decreases runs, |q|, 1
  {
    hide HooksOn, Served, Undisturbed;
    if q == [] {
      Unqueued(s, s, c);
      NotServed(s, s, c, p, !AnyMayKill(runs, c));
    } else {
      var x := q[0];
      assert Times(q, c) == One(x == c) + Times(q[1..], c) by { assert q == [x] + q[1..]; }
      match CellOf(s, x) {
        case Empty => RunQueueServes(s, p, ev, q[1..], woken, runs, c, busy);
        case Waiter(_, _, _) =>
          var s1 := Emptied(s, x);
          Unqueued(s, s1, c);
          NotServed(s, s1, c, p, true);
          StillServed(s, s1, c, p, 0, true);
          RunQueueServes(s1, p, ev, q[1..], woken + [WakeFor(CellOf(s, x), p.emitter, ev)], runs, c, busy);
          ServedTwice(s, s1, RunQueue(s, p, ev, q, woken, runs).state, c, p, 0, Times(q[1..], c), true, !AnyMayKill(runs, c));
        case Hook(_, _) => HookServes(s, p, ev, q, woken, runs, c, busy);
      }
    }
  }

  lemma HookServes(s: State, p: Place, ev: Event, q: seq<CellId>, woken: seq<Wake>, runs: Scripts, c: CellId,
                   busy: set<Emitter>)
    requires q != [] && CellOf(s, q[0]).Hook?
    requires CellOf(s, c).Hook? && HooksOn(s, c, p.emitter) && p.emitter in busy && AllPolite(runs, busy)
    ensures Served(s, RunQueue(s, p, ev, q, woken, runs).state, c, p, One(q[0] == c) + Times(q[1..], c),
                   !AnyMayKill(runs, c))
    decreases runs, |q|, 0
  {
    hide HooksOn, Served, Undisturbed, AfterHook;
    var x := q[0];
    var body := if runs.Next? then runs.body else Done;
    var ends := if runs.Next? then runs.ends else Returns;
    var rest := if runs.Next? then runs.rest else NoMore;
    var s1 := AfterHook(Perform(s.(log := s.log + [x]), body), p, x, ends);
    var spared := !ScriptMayKill(body, c) && !ends.KillsItself?;
    EntryServed(s, p, ev, x, body, ends, c, busy);
    StillServed(s, s1, c, p, One(x == c), spared);
    ServedAges(s, s1, c, p, One(x == c), spared);
    var s2 := RunQueue(s1, p, ev, q[1..], woken, rest).state;
    assert s2 == RunQueue(s, p, ev, q, woken, runs).state;
    if Full(s1, c) {
      RunQueueServes(s1, p, ev, q[1..], woken, rest, c, busy);
    } else {
      RunQueueUndisturbed(s1, p, ev, q[1..], woken, rest, c, {});
      Going(s1, s2, c, p.emitter);
    }
    ServedTwice(s, s1, s2, c, p, One(x == c), Times(q[1..], c), spared, !AnyMayKill(rest, c));
  }

  lemma ServedAges(s: State, s': State, c: CellId, p: Place, n: nat, spared: bool)
    requires CellOf(s, c).Hook? && Served(s, s', c, p, n, spared)
    ensures c < |s'.cells| && (CellOf(s', c) == CellOf(s, c) || !Full(s', c))
  {
  }

  lemma ParseServes(s: State, p: Place, ev: Event, woken: seq<Wake>, runs: Scripts, c: CellId, busy: set<Emitter>)
    requires CellOf(s, c).Hook? && HooksOn(s, c, p.emitter) && p.emitter in busy && AllPolite(runs, busy)
    ensures var s', n := Parse(s, p, ev, woken, runs).state, Times(Queue(s.waiting, p), c);
      && ServedHere(s, s', c, n, !AnyMayKill(runs, c))
      && (Full(s', c) ==> HooksOn(s', c, p.emitter))
  {
    hide HooksOn;
    var q := Queue(s.waiting, p);
    if p.event in RowsOf(s.waiting, p.emitter) {
      var s1 := s.(waiting := Put(s.waiting, p, []));
      forall x: Place ensures Queue(s1.waiting, x) == if x == p then [] else Queue(s.waiting, x) {
      }
      FewerQueues(s, s1, c, p.emitter);
      RunQueueServes(s1, p, ev, q, woken, runs, c, busy);
      var a := RunQueue(s1, p, ev, q, woken, runs).state;
      StillServed(s1, a, c, p, Times(q, c), !AnyMayKill(runs, c));
      var s' := a.(waiting := Tidied(a.waiting, p));
      forall x: Place ensures Queue(s'.waiting, x) == Queue(a.waiting, x) {
        TidiedQueue(a.waiting, p, x);
      }
      if Full(s', c) {
        FewerQueues(a, s', c, p.emitter);
      }
    }
  }

  lemma FewerQueues(s: State, s': State, c: CellId, e: Emitter)
    requires HooksOn(s, c, e) && CellOf(s', c) == CellOf(s, c)
    requires forall x {:trigger Queue(s'.waiting, x)} :: Queue(s'.waiting, x) in {[], Queue(s.waiting, x)}
    ensures HooksOn(s', c, e)
  {
  }

  /** Served, and registered exactly as before: for a whole pass over a queue, or a whole signal. */
  ghost predicate ServedHere(s: State, s': State, c: CellId, n: nat, spared: bool)
    requires CellOf(s, c).Hook?
  {
    var ran, once := RunsOf(s', c) - RunsOf(s, c), CellOf(s, c).once;
    && c < |s'.cells| && (CellOf(s', c) == CellOf(s, c) || !Full(s', c))
    && 0 <= ran <= n && (once ==> ran <= 1)
    && (Full(s', c) ==> ran == n && (once ==> n == 0) && forall x {:trigger Queue(s'.waiting, x)} ::
          Times(Queue(s'.waiting, x), c) == Times(Queue(s.waiting, x), c))
    && (spared ==> if once && n > 0 then ran == 1 && !Full(s', c) else Full(s', c))
  }

  /** A signal runs a hook once for each of its registrations at "*" and each at the event. Persistent hooks keep
      their registrations; a hook with once is run once and gone. Only killing it makes it run less. */
  lemma SignalServes(s: State, e: Emitter, ev: Event, star: Scripts, named: Scripts, c: CellId, busy: set<Emitter>)
    requires CellOf(s, c).Hook? && HooksOn(s, c, e) && Polite(Emit(e, ev, star, named), busy)
    ensures ServedHere(s, Apply(s, Emit(e, ev, star, named)), c,
                       Times(Queue(s.waiting, Place(e, STAR)), c) + Times(Queue(s.waiting, Place(e, ev)), c),
                       !MayKill(Emit(e, ev, star, named), c))
  {
    hide HooksOn, Undisturbed, Parse, Apply, ServedHere, Times;
    var n, m := Times(Queue(s.waiting, Place(e, STAR)), c), Times(Queue(s.waiting, Place(e, ev)), c);
    EmitPath(s, e, ev, star, named);
    var s1 := s.(processing := true);
    SameHooks(s, s1, c, e);
    ParseServes(s1, Place(e, STAR), ev, [], star, c, busy + {e});
    var a := Parse(s1, Place(e, STAR), ev, [], star);
    var b := Parse(a.state, Place(e, ev), ev, a.woken, named);
    StillThere(s1, a.state, c, n, !AnyMayKill(star, c), Place(e, ev));
    if Full(a.state, c) {
      ParseServes(a.state, Place(e, ev), ev, a.woken, named, c, busy + {e});
    } else {
      ParseUndisturbed(a.state, Place(e, ev), ev, a.woken, named, c, {});
      Going(a.state, b.state, c, e);
    }
    ServedBoth(s, s1, a.state, b.state, c, n, m, !AnyMayKill(star, c), !AnyMayKill(named, c));
    SameServed(s, b.state, b.state.(processing := s.processing, ready := b.state.ready + b.woken), c, n + m,
               !AnyMayKill(star, c) && !AnyMayKill(named, c));
  }

  lemma StillThere(s: State, s': State, c: CellId, n: nat, spared: bool, at: Place)
    requires CellOf(s, c).Hook? && ServedHere(s, s', c, n, spared)
    ensures c < |s'.cells|
    ensures Full(s', c) ==> CellOf(s', c) == CellOf(s, c) && Times(Queue(s'.waiting, at), c) == Times(Queue(s.waiting, at), c)
  {
  }

  lemma SameServed(s: State, s': State, s'': State, c: CellId, n: nat, spared: bool)
    requires CellOf(s, c).Hook? && ServedHere(s, s', c, n, spared)
    requires s''.cells == s'.cells && s''.log == s'.log && s''.waiting == s'.waiting
    ensures ServedHere(s, s'', c, n, spared)
  {
  }

  lemma ServedBoth(s: State, s1: State, s': State, s'': State, c: CellId, k: nat, n: nat, spared: bool, spared': bool)
    requires CellOf(s, c).Hook? && s1 == s.(processing := true) && ServedHere(s1, s', c, k, spared)
    requires if Full(s', c) then CellOf(s', c).Hook? && ServedHere(s', s'', c, n, spared')
             else RunsOf(s'', c) == RunsOf(s', c) && c < |s''.cells| && !Full(s'', c)
    ensures ServedHere(s, s'', c, k + n, spared && spared')
  {
  }

  /** The promise is one run for each registration at "*" or at the event. It is kept exactly when the event
      signalled is not "*" itself: then the wildcard queue is gone through twice. */
  lemma ExactlyOnceIff(s: State, e: Emitter, ev: Event, star: Scripts, named: Scripts, c: CellId)
    requires CellOf(s, c).Hook? && !CellOf(s, c).once && HooksOn(s, c, e)
    requires Polite(Emit(e, ev, star, named), {}) && !MayKill(Emit(e, ev, star, named), c)
    ensures var atStar, atEvent := Times(Queue(s.waiting, Place(e, STAR)), c), Times(Queue(s.waiting, Place(e, ev)), c);
      var registrations := if ev == STAR then atStar else atStar + atEvent;
      RunsOf(Apply(s, Emit(e, ev, star, named)), c) - RunsOf(s, c) == registrations <==> ev != STAR || registrations == 0
  {
    SignalServes(s, e, ev, star, named, c, {});
  }

  /* ---- Whole runs ---- */

  /** A spent or killed hook is not run; one with once is run at most once, and then it is spent. */
  predicate OnceAtMost(s: State, s': State, c: CellId) {
    && c < |s'.cells| && (CellOf(s', c) == CellOf(s, c) || !Full(s', c))
    && RunsOf(s, c) <= RunsOf(s', c) <= RunsOf(s, c) + One(Full(s, c) && !Full(s', c))
  }

  /** What must be known of c for that. */
  ghost predicate OnceHook(s: State, c: CellId, e: Emitter) {
    && c < |s.cells|
    && (Full(s, c) ==> HooksOn(s, c, e) && CellOf(s, c).once && HooksAt(s, c, PlacesOf(s, c)) && AllOn(s, c, e))
  }

  /** Cell c was registered for events of e only. */
  ghost predicate AllOn(s: State, c: CellId, e: Emitter) {
    forall p {:trigger p in PlacesOf(s, c)} :: p in PlacesOf(s, c) ==> p.emitter == e
  }

  /** If c is gone it was run: it was not killed. */
  predicate Ran(s: State, s': State, c: CellId) {
    Full(s, c) && !Full(s', c) ==> RunsOf(s', c) == RunsOf(s, c) + 1
  }

  lemma RanBoth(s: State, s1: State, s2: State, c: CellId)
    requires OnceAtMost(s, s1, c) && OnceAtMost(s1, s2, c)
    ensures OnceAtMost(s, s2, c) && (Ran(s, s1, c) && Ran(s1, s2, c) ==> Ran(s, s2, c))
  {
  }

  lemma {:induction false} RunQueueOnce(s: State, p: Place, ev: Event, q: seq<CellId>, woken: seq<Wake>, runs: Scripts,
                                        c: CellId, e: Emitter, busy: set<Emitter>)
    requires OnceHook(s, c, e) && AllPolite(runs, busy) && (Full(s, c) ==> c !in q)
    ensures var s' := RunQueue(s, p, ev, q, woken, runs).state; OnceAtMost(s, s', c) && OnceHook(s', c, e)
    ensures !AnyMayKill(runs, c) ==> Ran(s, RunQueue(s, p, ev, q, woken, runs).state, c)
    decreases runs, |q|, 0
  {
    hide OnceHook, AfterHook;
    OnceCell(s, c, e);
    if q != [] {
      var x := q[0];
      assert Full(s, c) ==> x != c && c !in q[1..];
      match CellOf(s, x) {
        case Empty => RunQueueOnce(s, p, ev, q[1..], woken, runs, c, e, busy);
        case Waiter(_, _, _) =>
          var s1 := Emptied(s, x);
          AsBefore(s, s1, c, e);
          RunQueueOnce(s1, p, ev, q[1..], woken + [WakeFor(CellOf(s, x), p.emitter, ev)], runs, c, e, busy);
        case Hook(_, _) =>
          HookOnce(s, p, ev, q, woken, runs, c, e, busy);
      }
    }
  }

  lemma HookOnce(s: State, p: Place, ev: Event, q: seq<CellId>, woken: seq<Wake>, runs: Scripts, c: CellId, e: Emitter,
                 busy: set<Emitter>)
    requires OnceHook(s, c, e) && AllPolite(runs, busy) && q != [] && (Full(s, c) ==> c !in q) && CellOf(s, q[0]).Hook?
    ensures var s' := RunQueue(s, p, ev, q, woken, runs).state; OnceAtMost(s, s', c) && OnceHook(s', c, e)
    ensures !AnyMayKill(runs, c) ==> Ran(s, RunQueue(s, p, ev, q, woken, runs).state, c)
    decreases runs, |q| - 1, 5
  {
    hide OnceHook, AfterHook, OnceAtMost, Ran;
    var x := q[0];
    var body := if runs.Next? then runs.body else Done;
    var ends := if runs.Next? then runs.ends else Returns;
    var rest := if runs.Next? then runs.rest else NoMore;
    var s1 := s.(log := s.log + [x]);
    var s2 := Perform(s1, body);
    LogOnce(s, x, c, e);
    if runs.Next? {
      PerformOnce(s1, body, c, e, busy);
    } else {
      NothingOnce(s1, c, e);
    }
    RanBoth(s, s1, s2, c);
    StaysGone(s, s2, c);
    var s3 := AfterHook(s2, p, x, ends);
    OtherTurn(s2, p, x, ends, c, e);
    RanBoth(s, s2, s3, c);
    StaysGone(s, s3, c);
    RunQueueOnce(s3, p, ev, q[1..], woken, rest, c, e, busy);
    RanBoth(s, s3, RunQueue(s3, p, ev, q[1..], woken, rest).state, c);
    assert RunQueue(s, p, ev, q, woken, runs) == RunQueue(s3, p, ev, q[1..], woken, rest);
  }

  lemma LogOnce(s: State, x: CellId, c: CellId, e: Emitter)
    requires OnceHook(s, c, e) && (Full(s, c) ==> x != c) && CellOf(s, x).Hook?
    ensures var s1 := s.(log := s.log + [x]); OnceHook(s1, c, e) && OnceAtMost(s, s1, c) && Ran(s, s1, c)
  {
    AsBefore(s, s.(log := s.log + [x]), c, e);
  }

  lemma NothingOnce(s: State, c: CellId, e: Emitter)
    requires OnceHook(s, c, e)
    ensures OnceAtMost(s, s, c) && Ran(s, s, c)
  {
  }

  lemma StaysGone(s: State, s': State, c: CellId)
    requires OnceAtMost(s, s', c)
    ensures Full(s', c) ==> Full(s, c)
  {
  }

  lemma OtherTurn(s: State, p: Place, x: CellId, ends: Ending, c: CellId, e: Emitter)
    requires OnceHook(s, c, e) && (Full(s, c) ==> x != c)
    ensures var s' := AfterHook(s, p, x, ends);
      && OnceHook(s', c, e) && OnceAtMost(s, s', c) && Ran(s, s', c)
  {
    AsBefore(s, AfterHook(s, p, x, ends), c, e);
  }

  lemma AsBefore(s: State, s': State, c: CellId, e: Emitter)
    requires OnceHook(s, c, e) && c < |s'.cells| && (CellOf(s', c) == CellOf(s, c) || !Full(s', c))
    requires Full(s', c) ==> forall p {:trigger Queue(s'.waiting, p)} ::
      c in Queue(s'.waiting, p) ==> c in Queue(s.waiting, p)
    ensures OnceHook(s', c, e)
  {
  }

  lemma ParseOnce(s: State, p: Place, ev: Event, woken: seq<Wake>, runs: Scripts, c: CellId, e: Emitter, busy: set<Emitter>)
    requires OnceHook(s, c, e) && AllPolite(runs, busy) && (Full(s, c) ==> p.emitter != e)
    ensures var s' := Parse(s, p, ev, woken, runs).state; OnceAtMost(s, s', c) && OnceHook(s', c, e)
    ensures !AnyMayKill(runs, c) ==> Ran(s, Parse(s, p, ev, woken, runs).state, c)
    decreases runs, |Queue(s.waiting, p)|, 1
  {
    if p.event in RowsOf(s.waiting, p.emitter) {
      var s1 := s.(waiting := Put(s.waiting, p, []));
      forall x: Place ensures Queue(s1.waiting, x) == if x == p then [] else Queue(s.waiting, x) {
      }
      AsBefore(s, s1, c, e);
      RunQueueOnce(s1, p, ev, Queue(s.waiting, p), woken, runs, c, e, busy);
      var a := RunQueue(s1, p, ev, Queue(s.waiting, p), woken, runs).state;
      var a' := a.(waiting := Tidied(a.waiting, p));
      forall x: Place ensures Queue(a'.waiting, x) == Queue(a.waiting, x) {
        TidiedQueue(a.waiting, p, x);
      }
      AsBefore(a, a', c, e);
    }
  }

  lemma ApplyOnce(s: State, effect: Effect, c: CellId, e: Emitter, busy: set<Emitter>)
    requires OnceHook(s, c, e) && Polite(effect, busy)
    ensures OnceAtMost(s, Apply(s, effect), c) && OnceHook(Apply(s, effect), c, e)
    ensures !MayKill(effect, c) ==> Ran(s, Apply(s, effect), c)
    decreases effect, 0, 3
  {
    hide OnceHook;
    OnceCell(s, c, e);
    var s' := Apply(s, effect);
    match effect {
      case Spawn => AsBefore(s, s', c, e);
      case AddHook(e', entries, once) =>
        forall p: Place ensures c in Queue(s'.waiting, p) ==> c in Queue(s.waiting, p) {
          InRegisteredAll(s.waiting, [e'], entries, |s.cells|, c, p);
        }
        AsBefore(s, s', c, e);
      case KillHook(x) =>
        AsBefore(s, s', c, e);
      case Collect =>
        forall p: Place ensures c in Queue(s'.waiting, p) ==> c in Queue(s.waiting, p) {
          InCollected(s, c, p);
        }
        AsBefore(s, s', c, e);
      case LateWait(es, entries, multi) =>
        forall p: Place ensures c in Queue(s'.waiting, p) ==> c in Queue(s.waiting, p) {
          InRegisteredAll(s.waiting, es, entries, |s.cells|, c, p);
        }
        AsBefore(s, s', c, e);
      case LateYield => AsBefore(s, s', c, e);
      case Emit(e', ev, star, named) => EmitOnce(s, e', ev, star, named, c, e, busy);
    }
  }

  lemma OnceCell(s: State, c: CellId, e: Emitter)
    requires OnceHook(s, c, e)
    ensures c < |s.cells| && (Full(s, c) ==> CellOf(s, c).Hook?)
  {
  }

  lemma EmitOnce(s: State, e': Emitter, ev: Event, star: Scripts, named: Scripts, c: CellId, e: Emitter, busy: set<Emitter>)
    requires OnceHook(s, c, e) && Polite(Emit(e', ev, star, named), busy)
    ensures var s' := Apply(s, Emit(e', ev, star, named)); OnceAtMost(s, s', c) && OnceHook(s', c, e)
    ensures !MayKill(Emit(e', ev, star, named), c) ==> Ran(s, Apply(s, Emit(e', ev, star, named)), c)
    decreases Emit(e', ev, star, named), 0, 2
  {
    hide Parse;
    var s' := Apply(s, Emit(e', ev, star, named));
    if !Full(s, c) {
      ApplyUndisturbed(s, Emit(e', ev, star, named), c, {});
    } else if e' == e {
      SignalServes(s, e, ev, star, named, c, busy);
      forall p: Place | Full(s', c) && c in Queue(s'.waiting, p) ensures c in Queue(s.waiting, p) {
        assert Times(Queue(s'.waiting, p), c) > 0;
      }
    } else if e' in s.waiting {
      var s1 := s.(processing := true);
      ParseOnce(s1, Place(e', STAR), ev, [], star, c, e, busy + {e'});
      var a := Parse(s1, Place(e', STAR), ev, [], star);
      ParseOnce(a.state, Place(e', ev), ev, a.woken, named, c, e, busy + {e'});
    }
  }

  lemma {:induction false} PerformOnce(s: State, script: Script, c: CellId, e: Emitter, busy: set<Emitter>)
    requires OnceHook(s, c, e) && ScriptPolite(script, busy)
    ensures OnceAtMost(s, Perform(s, script), c) && OnceHook(Perform(s, script), c, e)
    ensures !ScriptMayKill(script, c) ==> Ran(s, Perform(s, script), c)
    decreases script, 0, 4
  {
    hide OnceHook;
    match script {
      case Done => OnceCell(s, c, e);
      case Do(effect, next) =>
        ApplyOnce(s, effect, c, e, busy);
        PerformOnce(Apply(s, effect), next, c, e, busy);
    }
  }

  /** No hook run in an action signals an emitter that is being signalled; and a hook with once whose delay has elapsed
      does not signal what it is still registered for. */
  predicate PoliteAction(a: Action, s: State) {
    match a
    case Act(effect) => Polite(effect, {})
    case Die(star, named) => s.running.Some? ==> Polite(Emit(Thread(s.running.value), DIE, star, named), {})
    case Expire(x, _, body) =>
      ScriptPolite(body, {}) && (CellOf(s, x).Hook? && CellOf(s, x).once ==> !ScriptTouches(body, PlacesOf(s, x)))
    case _ => true
  }

  predicate PoliteRun(s: State, actions: seq<Action>)
    requires CanRun(s, actions)
    decreases |actions|
  {
    actions == [] || (PoliteAction(actions[0], s) && PoliteRun(Step(s, actions[0]), actions[1..]))
  }

  lemma StepOnce(s: State, a: Action, c: CellId, e: Emitter)
    requires Enabled(s, a) && PoliteAction(a, s) && OnceHook(s, c, e)
    ensures OnceAtMost(s, Step(s, a), c) && OnceHook(Step(s, a), c, e)
  {
    hide Apply;
    match a {
      case Resume =>
      case Act(effect) => ApplyOnce(s, effect, c, e, {});
      case Yield =>
      case Wait(es, entries, multi) => WaitOnce(s, es, entries, multi, c, e);
      case Die(star, named) =>
        var s1 := s.(dead := s.dead + {s.running.value});
        AsBefore(s, s1, c, e);
        ApplyOnce(s1, Emit(Thread(s.running.value), DIE, star, named), c, e, {});
      case Expire(x, e', body) => ExpireOnce(s, x, e', body, c, e);
    }
  }

  lemma WaitOnce(s: State, es: seq<Emitter>, entries: seq<Entry>, multi: bool, c: CellId, e: Emitter)
    requires Enabled(s, Wait(es, entries, multi)) && OnceHook(s, c, e)
    ensures var s' := Step(s, Wait(es, entries, multi)); OnceAtMost(s, s', c) && OnceHook(s', c, e)
  {
    var s' := Step(s, Wait(es, entries, multi));
    forall p: Place ensures c in Queue(s'.waiting, p) ==> c in Queue(s.waiting, p) {
      InRegisteredAll(s.waiting, es, entries, |s.cells|, c, p);
    }
    AsBefore(s, s', c, e);
  }

  lemma ExpireOnce(s: State, x: CellId, e': Emitter, body: Script, c: CellId, e: Emitter)
    requires OnceHook(s, c, e) && PoliteAction(Expire(x, e', body), s)
    ensures var s' := Expired(s, x, e', body); OnceAtMost(s, s', c) && OnceHook(s', c, e)
  {
    if CellOf(s, x).Hook? {
      var s1 := s.(log := s.log + [x]);
      AsBefore(s, s1, c, e);
      var s2 := Perform(s1, body);
      if x == c {
        PerformUndisturbed(s1, body, c, PlacesOf(s, c));
      } else {
        OtherExpires(s, x, body, c, e);
      }
    }
  }

  lemma OtherExpires(s: State, x: CellId, body: Script, c: CellId, e: Emitter)
    requires OnceHook(s, c, e) && ScriptPolite(body, {}) && x != c && CellOf(s, x).Hook?
    ensures var s' := Emptied(Perform(s.(log := s.log + [x]), body), x); OnceAtMost(s, s', c) && OnceHook(s', c, e)
  {
    hide Perform;
    var s1 := s.(log := s.log + [x]);
    LogOnce(s, x, c, e);
    PerformOnce(s1, body, c, e, {});
    var s2 := Perform(s1, body);
    AsBefore(s2, Emptied(s2, x), c, e);
  }

  /** Over any run a once hook runs at most once, and a hook that was killed or spent does not run at all. */
  lemma {:induction false} OnceHooksRunOnce(s: State, actions: seq<Action>, c: CellId, e: Emitter)
    requires CanRun(s, actions) && PoliteRun(s, actions) && OnceHook(s, c, e)
    ensures OnceAtMost(s, Reached(s, actions), c)
    decreases |actions|
  {
    if actions == [] {
    } else {
      StepOnce(s, actions[0], c, e);
      OnceHooksRunOnce(Step(s, actions[0]), actions[1..], c, e);
    }
  }

  /* ---- Once, when a delay has elapsed ---- */

  /** The script itself signals one of the places. */
  predicate Signals(script: Script, at: set<Place>)
    decreases script
  {
    script.Do? && (Signals(script.next, at) || Hits(script.effect, at))
  }

  predicate Hits(effect: Effect, at: set<Place>) {
    effect.Emit? && (Place(effect.emitter, STAR) in at || Place(effect.emitter, effect.event) in at)
  }

  /** Cell c is in the queue of each place it was registered at. */
  ghost predicate LocatedAll(s: State, c: CellId) {
    forall p {:trigger Located(s, c, p, false)} :: Located(s, c, p, false)
  }

  lemma HitRuns(s: State, effect: Effect, c: CellId, e: Emitter)
    requires OnceHook(s, c, e) && LocatedAll(s, c) && Polite(effect, {}) && !MayKill(effect, c)
    requires Full(s, c) && Hits(effect, PlacesOf(s, c))
    ensures !Full(Apply(s, effect), c)
  {
    hide Apply, Polite;
    var p1, p2 := Place(effect.emitter, STAR), Place(effect.emitter, effect.event);
    assert effect.emitter == e;
    assert Located(s, c, p1, false) && Located(s, c, p2, false);
    SignalServes(s, e, effect.event, effect.star, effect.named, c, {});
    assert Times(Queue(s.waiting, p1), c) + Times(Queue(s.waiting, p2), c) > 0;
  }

  lemma StillLocated(s: State, effect: Effect, c: CellId)
    requires LocatedAll(s, c) && CellOf(s, c).Hook?
    ensures LocatedAll(Apply(s, effect), c)
  {
    hide Located, Apply;
    forall p ensures Located(Apply(s, effect), c, p, false) {
      assert Located(s, c, p, false);
      ApplyLocated(s, effect, c, p, false);
    }
  }

  /** A script that signals what c listens to runs c, and a script that does not, here or in turn, lets it be. */
  lemma {:induction false} PerformHits(s: State, script: Script, c: CellId, e: Emitter)
    requires OnceHook(s, c, e) && LocatedAll(s, c) && ScriptPolite(script, {}) && !ScriptMayKill(script, c) && Full(s, c)
    ensures Signals(script, PlacesOf(s, c)) ==> !Full(Perform(s, script), c)
    decreases script
  {
    hide OnceHook, Apply;
    OnceCell(s, c, e);
    if script.Do? {
      var effect, next := script.effect, script.next;
      var s1 := Apply(s, effect);
      ApplyOnce(s, effect, c, e, {});
      if Full(s1, c) {
        if Hits(effect, PlacesOf(s, c)) {
          HitRuns(s, effect, c, e);
        } else if Signals(next, PlacesOf(s, c)) {
          StillLocated(s, effect, c);
          PerformHits(s1, next, c, e);
        }
      } else {
        PerformOnce(s1, next, c, e, {});
      }
    }
  }

  /** How often the hook of a cell with once runs when its delay elapses, if nobody kills it meanwhile: a second time
      exactly when the script has emptied it, surely when that signals one of its places itself, and surely not when
      nothing that is done in turn does. */
  lemma ExpiredRuns(s: State, c: CellId, e': Emitter, body: Script, e: Emitter)
    requires OnceHook(s, c, e) && LocatedAll(s, c) && Full(s, c)
    requires ScriptPolite(body, {}) && !ScriptMayKill(body, c)
    ensures var s', s2, at := Expired(s, c, e', body), Perform(s.(log := s.log + [c]), body), PlacesOf(s, c);
      && !Full(s', c)
      && RunsOf(s', c) == RunsOf(s, c) + (if Full(s2, c) then 1 else 2)
      && (Signals(body, at) ==> RunsOf(s', c) == RunsOf(s, c) + 2)
      && (!ScriptTouches(body, at) ==> RunsOf(s', c) == RunsOf(s, c) + 1)
  {
    var s1 := s.(log := s.log + [c]);
    var s2 := Perform(s1, body);
    AsBefore(s, s1, c, e);
    forall p ensures Located(s1, c, p, false) {
      assert Located(s, c, p, false);
    }
    PerformOnce(s1, body, c, e, {});
    PerformHits(s1, body, c, e);
    if !ScriptTouches(body, PlacesOf(s, c)) {
      PerformUndisturbed(s1, body, c, PlacesOf(s, c));
    }
    assert RunsOf(s1, c) == RunsOf(s, c) + 1;
  }

  /** So with bodies whose signals are their own, that is, where hooks run in turn touch none of its places, it runs once
      exactly when the body signals none of them. */
  lemma ExpiredOnceIff(s: State, c: CellId, e': Emitter, body: Script, e: Emitter)
    requires OnceHook(s, c, e) && LocatedAll(s, c) && Full(s, c)
    requires ScriptPolite(body, {}) && !ScriptMayKill(body, c)
    requires ScriptTouches(body, PlacesOf(s, c)) ==> Signals(body, PlacesOf(s, c))
    ensures RunsOf(Expired(s, c, e', body), c) == RunsOf(s, c) + 1 <==> !Signals(body, PlacesOf(s, c))
  {
    ExpiredRuns(s, c, e', body, e);
  }
  lemma {:induction false} PlacesOn(e: Emitter, entries: seq<Entry>, p: Place)
    requires p in NamedPlaces(e, entries)
    ensures p.emitter == e
  {
    if entries != [] && p in NamedPlaces(e, entries[1..]) {
      PlacesOn(e, entries[1..], p);
    }
  }

  /** sigHook and sigOnce make hooks that sit in the queues of their emitter only, as the lemmas above require. */
  lemma NewHook(s: State, e: Emitter, entries: seq<Entry>, once: bool)
    requires AllLocated(s)
    ensures var s', c := Apply(s, AddHook(e, entries, once)), |s.cells|;
      && CellOf(s', c) == Hook(once, AllPlaces([e], entries)) && HooksOn(s', c, e)
      && HooksAt(s', c, PlacesOf(s', c)) && AllOn(s', c, e)
  {
    var s', c := Apply(s, AddHook(e, entries, once)), |s.cells|;
    forall p: Place | p in AllPlaces([e], entries) ensures p.emitter == e {
      assert AllPlaces([e], entries) == Places(e, entries) by { assert [e][1..] == []; }
      if p in NamedPlaces(e, entries) {
        PlacesOn(e, entries, p);
      }
    }
    forall p: Place | c in Queue(s'.waiting, p) ensures p in AllPlaces([e], entries) {
      InRegisteredAll(s.waiting, [e], entries, c, c, p);
      assert Located(s, c, p, false);
    }
  }

  /** A hook with once for an event and a delay, which signals that event when the delay elapses: it runs twice. */
  lemma RunsTwice()
    ensures var e := Object(0);
      var body := Do(Emit(e, "a", NoMore, NoMore), Done);
      var run := [Act(AddHook(e, [After(1), Named("a")], true)), Expire(0, e, body)];
      CanRun(INITIAL, run) && RunsOf(Reached(INITIAL, run), 0) == 2
  {
    var e, entries := Object(0), [After(1), Named("a")];
    var body := Do(Emit(e, "a", NoMore, NoMore), Done);
    var a, b := Act(AddHook(e, entries, true)), Expire(0, e, body);
    var s := Step(INITIAL, a);
    Initially();
    StepKeepsTasks(INITIAL, a);
    NewHook(INITIAL, e, entries, true);
    FirstPlaces(e);
    forall p ensures Located(s, 0, p, false) {
    }
    ExpiredRuns(s, 0, e, body, e);
    assert [a, b][1..] == [b] && [b][1..] == [];
    assert Reached(s, [b]) == Reached(Step(s, b), []) == Step(s, b);
  }

  lemma FirstPlaces(e: Emitter)
    ensures AllPlaces([e], [After(1), Named("a")]) == [Place(e, TIMEOUT), Place(e, "a")]
  {
    var entries := [After(1), Named("a")];
    assert entries[1..] == [Named("a")] && entries[1..][1..] == [];
    assert Delays([Named("a")]) == 0 && Delays(entries) == 1;
    assert NamedPlaces(e, [Named("a")]) == [Place(e, "a")] && NamedPlaces(e, entries) == [Place(e, "a")];
    assert [e][1..] == [];
  }

  /** A hook for "*" of an emitter runs twice when "*" itself is signalled. */
  lemma StarRunsTwice()
    ensures var e := Object(0);
      var run := [Act(AddHook(e, [Named(STAR)], false)), Act(Emit(e, STAR, NoMore, NoMore))];
      CanRun(INITIAL, run) && RunsOf(Reached(INITIAL, run), 0) == 2
  {
    var e := Object(0);
    var p, emit := Place(e, STAR), Emit(e, STAR, NoMore, NoMore);
    var a, b := Act(AddHook(e, [Named(STAR)], false)), Act(emit);
    var s := Step(INITIAL, a);
    Initially();
    NewHook(INITIAL, e, [Named(STAR)], false);
    OneEvent(map[], e, STAR, 0);
    assert Queue(s.waiting, p) == [0];
    assert Times([0], 0) == 1;
    SignalServes(s, e, STAR, NoMore, NoMore, 0, {});
    assert [a, b][1..] == [b] && [b][1..] == [];
    assert Reached(s, [b]) == Reached(Step(s, b), []) == Apply(s, emit);
  }

  /* ---- Killed hooks ---- */

  /** Killing a hook empties its cell, and no other; so does a hook that kills itself when it has run. */
  lemma Kills(s: State, c: CellId, p: Place)
    requires CellOf(s, c).Hook?
    ensures !Full(Apply(s, KillHook(c)), c) && forall x :: x != c ==> CellOf(Apply(s, KillHook(c)), x) == CellOf(s, x)
    ensures !Full(AfterHook(s, p, c, KillsItself), c)
    ensures AfterHook(s, p, c, Fails) == AfterHook(s, p, c, Returns)
  {
  }

  /** Anything else that is asked to be killed is left alone. */
  lemma KillsOnlyHooks(s: State, c: CellId)
    requires !CellOf(s, c).Hook?
    ensures Apply(s, KillHook(c)) == s
  {
  }

  lemma StepLeavesEmpty(s: State, a: Action, c: CellId)
    requires Enabled(s, a) && c < |s.cells| && !Full(s, c)
    ensures var s' := Step(s, a); c < |s'.cells| && !Full(s', c) && RunsOf(s', c) == RunsOf(s, c)
  {
    match a {
      case Act(effect) => ApplyUndisturbed(s, effect, c, {});
      case Die(star, named) =>
        var s1 := s.(dead := s.dead + {s.running.value});
        ApplyUndisturbed(s1, Emit(Thread(s.running.value), DIE, star, named), c, {});
      case Expire(x, _, body) =>
        if CellOf(s, x).Hook? {
          PerformUndisturbed(s.(log := s.log + [x]), body, c, {});
        }
      case _ =>
    }
  }

  /** A hook that was killed, or is spent, never runs again, whatever hooks do. */
  lemma {:induction false} NeverAgain(s: State, actions: seq<Action>, c: CellId)
    requires CanRun(s, actions) && c < |s.cells| && !Full(s, c)
    ensures RunsOf(Reached(s, actions), c) == RunsOf(s, c)
    decreases |actions|
  {
    hide Step, Enabled;
    if actions != [] {
      StepLeavesEmpty(s, actions[0], c);
      NeverAgain(Step(s, actions[0]), actions[1..], c);
    }
  }
}
