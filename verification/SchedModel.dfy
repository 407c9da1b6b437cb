/** The cooperative scheduler as a state machine (sched/init.lua): the ready list, the waiting table, cells shared
    between queues, signals, hooks and the collection of dead cells. A task is an identifier; whatever it or a hook
    does between two switches is a script. */
module SchedModel {
  import opened Bytes

  type Task = nat
  type CellId = nat
  type Event = string

  const STAR: Event := "*"
  const TIMEOUT: Event := "timeout"
  const DIE: Event := "die"

  datatype Emitter = Thread(task: Task) | Object(id: nat)

  datatype Place = Place(emitter: Emitter, event: Event)

  /** A cell, with the places it was registered at. */
  datatype Cell =
    | Empty
    | Waiter(task: Task, multi: bool, at: seq<Place>)
    | Hook(once: bool, at: seq<Place>)

  /** A task to resume: at its start, after wait(), or after a signal with this event (and its emitter for multiWait). */
  datatype Wake = Starts(task: Task) | Again(task: Task) | Woken(task: Task, from: Option<Emitter>, event: Event)

  type Rows = map<Event, seq<CellId>>
  type Table = map<Emitter, Rows>

  /** running: the task on the processor; __tasks.running is nil when there is none, and also when it is stuck, that is,
      when a wait that could not switch has left it nil. spares counts the waits that have failed too late. */
  datatype State = State(
    ready: seq<Wake>,
    waiting: Table,
    cells: seq<Cell>,
    running: Option<Task>,
    stuck: bool,
    tasks: nat,
    dead: set<Task>,
    processing: bool,
    log: seq<CellId>,
    spares: nat)

  const INITIAL := State([], map[], [], None, false, 0, {}, false, [], 0)

  /** An entry of an event list: an event name or a delay. */
  datatype Entry = Named(event: Event) | After(delay: int)

  /** What a task or a hook does without switching. An Emit comes with what each hook it runs does in turn. LateWait and
      LateYield are waits, with and without arguments, where the task cannot switch, as in a hook: they fail, but only
      after the running task has been registered or put into the ready list. */
  datatype Effect =
    | Spawn
    | AddHook(emitter: Emitter, entries: seq<Entry>, once: bool)
    | KillHook(cell: CellId)
    | Collect
    | Emit(emitter: Emitter, event: Event, star: Scripts, named: Scripts)
    | LateWait(emitters: seq<Emitter>, entries: seq<Entry>, multi: bool)
    | LateYield

  datatype Script = Done | Do(effect: Effect, next: Script)

  datatype Ending = Returns | Fails | KillsItself

  datatype Scripts = NoMore | Next(body: Script, ends: Ending, rest: Scripts)

  /* ---- The waiting table ---- */

  function Queue(w: Table, p: Place): seq<CellId> {
    if p.emitter in w && p.event in w[p.emitter] then w[p.emitter][p.event] else []
  }

  function RowsOf(w: Table, e: Emitter): Rows {
    if e in w then w[e] else map[]
  }

  function Put(w: Table, p: Place, q: seq<CellId>): Table {
    w[p.emitter := RowsOf(w, p.emitter)[p.event := q]]
  }

  function Appended(w: Table, p: Place, c: CellId): Table {
    Put(w, p, Queue(w, p) + [c])
  }

  /** Empty rows are dropped, and emitters without rows. */
  function Tidied(w: Table, p: Place): Table {
    if p.emitter !in w || Queue(w, p) != [] then w
    else
      var rows := w[p.emitter] - {p.event};
      if rows == map[] then w - {p.emitter} else w[p.emitter := rows]
  }

  /* ---- Cells ---- */

  function CellOf(s: State, c: CellId): Cell {
    if c < |s.cells| then s.cells[c] else Empty
  }

  function Emptied(s: State, c: CellId): State {
    if c < |s.cells| then s.(cells := s.cells[c := Empty]) else s
  }

  predicate Alive(s: State, t: Task) {
    t < s.tasks && t !in s.dead
  }

  /** gc drops emptied cells and those of dead threads. */
  predicate Collectable(s: State, c: CellId) {
    match CellOf(s, c)
    case Empty => true
    case Waiter(t, _, _) => t in s.dead
    case Hook(_, _) => false
  }

  function Kept(s: State, q: seq<CellId>): seq<CellId> {
    if q == [] then []
    else (if Collectable(s, q[0]) then [] else [q[0]]) + Kept(s, q[1..])
  }

  function KeptRows(s: State, rows: Rows): Rows {
    map ev | ev in rows && (s.processing || Kept(s, rows[ev]) != []) :: Kept(s, rows[ev])
  }

  /** gc: rows and emitters left empty go too, except while a signal is processed. */
  function Collected(s: State): State {
    s.(waiting := map e | e in s.waiting && (s.processing || KeptRows(s, s.waiting[e]) != map[]) ::
                    KeptRows(s, s.waiting[e]))
  }

  /* ---- Registration ---- */

  function Delays(entries: seq<Entry>): nat {
    if entries == [] then 0 else (if entries[0].After? then 1 else 0) + Delays(entries[1..])
  }

  function NamedPlaces(e: Emitter, entries: seq<Entry>): seq<Place> {
    if entries == [] then []
    else (if entries[0].Named? then [Place(e, entries[0].event)] else []) + NamedPlaces(e, entries[1..])
  }

  /** Where register puts a cell, in this order; a second delay makes it give up with an error. */
  function Places(e: Emitter, entries: seq<Entry>): seq<Place> {
    if Delays(entries) == 0 then NamedPlaces(e, entries)
    else [Place(e, TIMEOUT)] + if Delays(entries) == 1 then NamedPlaces(e, entries) else []
  }

  function AppendedAll(w: Table, places: seq<Place>, c: CellId): Table
    decreases places
  {
    if places == [] then w else AppendedAll(Appended(w, places[0], c), places[1..], c)
  }

  /** The emitter's row exists even when nothing is put there. */
  function Opened(w: Table, e: Emitter): Table {
    w[e := RowsOf(w, e)]
  }

  function Registered(w: Table, e: Emitter, entries: seq<Entry>, c: CellId): Table {
    AppendedAll(Opened(w, e), Places(e, entries), c)
  }

  /** register for one emitter after the other, up to the first error. */
  function AllPlaces(es: seq<Emitter>, entries: seq<Entry>): seq<Place> {
    if es == [] then []
    else Places(es[0], entries) + if Delays(entries) <= 1 then AllPlaces(es[1..], entries) else []
  }

  function RegisteredAll(w: Table, es: seq<Emitter>, entries: seq<Entry>, c: CellId): Table
    decreases es
  {
    if es == [] then w
    else
      var w' := Registered(w, es[0], entries, c);
      if Delays(entries) <= 1 then RegisteredAll(w', es[1..], entries, c) else w'
  }

  /** A new cell, registered. */
  function Added(s: State, cell: Cell, es: seq<Emitter>, entries: seq<Entry>): State {
    s.(cells := s.cells + [cell], waiting := RegisteredAll(s.waiting, es, entries, |s.cells|))
  }

  /** A wait of the running task up to its switch. A second delay is an error that leaves the cell registered. */
  function Waiting(s: State, es: seq<Emitter>, entries: seq<Entry>, multi: bool): State
    requires s.running.Some?
  {
    Added(s, Waiter(s.running.value, multi, AllPlaces(es, entries)), es, entries)
  }

  predicate TwoDelays(es: seq<Emitter>, entries: seq<Entry>) {
    es != [] && Delays(entries) >= 2
  }

  /** A wait that cannot switch; without __tasks.running it fails at once. */
  function WaitedLate(s: State, es: seq<Emitter>, entries: seq<Entry>, multi: bool): State {
    if s.running == None || s.stuck then s
    else Waiting(s, es, entries, multi).(spares := s.spares + 1, stuck := !TwoDelays(es, entries))
  }

  function YieldedLate(s: State): State {
    if s.running == None || s.stuck then s
    else s.(ready := s.ready + [Again(s.running.value)], spares := s.spares + 1, stuck := true)
  }

  /* ---- Signals ---- */

  datatype Pass = Pass(state: State, woken: seq<Wake>)

  function WakeFor(cell: Cell, e: Emitter, ev: Event): Wake
    requires cell.Waiter?
  {
    Woken(cell.task, if cell.multi then Some(e) else None, ev)
  }

  /** After a hook has run: it goes to the new queue or is emptied. */
  function AfterHook(s: State, p: Place, c: CellId, ends: Ending): State {
    var cell := CellOf(s, c);
    if ends.KillsItself? || (cell.Hook? && cell.once) then Emptied(s, c)
    else s.(waiting := Appended(s.waiting, p, c))
  }

  /** runcell over the queue taken out of place p. */
  function RunQueue(s: State, p: Place, ev: Event, q: seq<CellId>, woken: seq<Wake>, runs: Scripts): Pass
    decreases runs, |q|, 0
  {
    if q == [] then Pass(s, woken)
    else
      match CellOf(s, q[0])
      case Empty => RunQueue(s, p, ev, q[1..], woken, runs)
      case Waiter(_, _, _) =>
        RunQueue(Emptied(s, q[0]), p, ev, q[1..], woken + [WakeFor(CellOf(s, q[0]), p.emitter, ev)], runs)
      case Hook(_, _) =>
        var s' := s.(log := s.log + [q[0]]);
        match runs
        case NoMore => RunQueue(AfterHook(s', p, q[0], Returns), p, ev, q[1..], woken, NoMore)
        case Next(body, ends, rest) =>
          RunQueue(AfterHook(Perform(s', body), p, q[0], ends), p, ev, q[1..], woken, rest)
  }

  /** parse_queue */
  function Parse(s: State, p: Place, ev: Event, woken: seq<Wake>, runs: Scripts): Pass
    decreases runs, |Queue(s.waiting, p)|, 1
  {
    if p.event !in RowsOf(s.waiting, p.emitter) then Pass(s, woken)
    else
      var a := RunQueue(s.(waiting := Put(s.waiting, p, [])), p, ev, Queue(s.waiting, p), woken, runs);
      a.(state := a.state.(waiting := Tidied(a.state.waiting, p)))
  }

  /** An Emit is signal. */
  function Apply(s: State, effect: Effect): State
    decreases effect, 0, 3
  {
    match effect
    case Spawn => s.(ready := s.ready + [Starts(s.tasks)], tasks := s.tasks + 1)
    case AddHook(e, entries, once) => Added(s, Hook(once, AllPlaces([e], entries)), [e], entries)
    case KillHook(c) => if CellOf(s, c).Hook? then Emptied(s, c) else s
    case Collect => Collected(s)
    case Emit(e, ev, star, named) =>
      if e !in s.waiting then s
      else
        var a := Parse(s.(processing := true), Place(e, STAR), ev, [], star);
        var b := Parse(a.state, Place(e, ev), ev, a.woken, named);
        b.state.(processing := s.processing, ready := b.state.ready + b.woken)
    case LateWait(es, entries, multi) => WaitedLate(s, es, entries, multi)
    case LateYield => YieldedLate(s)
  }

  function Perform(s: State, script: Script): State
    decreases script, 0, 4
  {
    match script
    case Done => s
    case Do(effect, next) => Perform(Apply(s, effect), next)
  }

  /** No wait that cannot switch, here or in the hooks that are run in turn. */
  predicate Quiet(effect: Effect)
    decreases effect
  {
    !effect.LateWait? && !effect.LateYield? && (effect.Emit? ==> AllQuiet(effect.star) && AllQuiet(effect.named))
  }

  predicate ScriptQuiet(script: Script)
    decreases script
  {
    script.Do? ==> Quiet(script.effect) && ScriptQuiet(script.next)
  }

  predicate AllQuiet(runs: Scripts)
    decreases runs
  {
    runs.Next? ==> ScriptQuiet(runs.body) && AllQuiet(runs.rest)
  }

  /* ---- Runs ---- */

  datatype Action =
    | Resume
    | Act(effect: Effect)
    | Yield
    | Wait(emitters: seq<Emitter>, entries: seq<Entry>, multi: bool)
    | Die(star: Scripts, named: Scripts)
    | Expire(cell: CellId, emitter: Emitter, body: Script)

  predicate Busy(s: State) {
    s.running.Some? && Alive(s, s.running.value)
  }

  /** step resumes when no task is running; only the running task can wait, and one that is dead can only be found to
      be; a timeout elapses for a cell that was registered with one, or has been emptied since. */
  predicate Enabled(s: State, a: Action) {
    match a
    case Resume => s.running == None && s.ready != []
    case Act(_) => true
    case Yield => Busy(s) && !s.stuck
    case Wait(es, _, multi) => Busy(s) && !s.stuck && (!multi ==> |es| == 1)
    case Die(_, _) => s.running.Some?
    case Expire(c, e, _) => CellOf(s, c).Empty? || Place(e, TIMEOUT) in CellOf(s, c).at
  }

  /** timeout_callback */
  function Expired(s: State, c: CellId, e: Emitter, body: Script): State {
    match CellOf(s, c)
    case Empty => s
    case Waiter(_, _, _) => Emptied(s, c).(ready := s.ready + [WakeFor(CellOf(s, c), e, TIMEOUT)])
    case Hook(_, _) => Emptied(Perform(s.(log := s.log + [c]), body), c)
  }

  function Step(s: State, a: Action): State
    requires Enabled(s, a)
  {
    match a
    case Resume => s.(running := Some(s.ready[0].task), stuck := false, ready := s.ready[1..])
    case Act(effect) => Apply(s, effect)
    case Yield => s.(running := None, ready := s.ready + [Again(s.running.value)])
    case Wait(es, entries, multi) =>
      var s' := Waiting(s, es, entries, multi);
      if TwoDelays(es, entries) then s'.(spares := s.spares + 1) else s'.(running := None)
    case Die(star, named) =>
      Apply(s.(dead := s.dead + {s.running.value}), Emit(Thread(s.running.value), DIE, star, named)).(running := None)
    case Expire(c, e, body) => Expired(s, c, e, body)
  }

  predicate CanRun(s: State, actions: seq<Action>)
    decreases |actions|
  {
    actions == [] || (Enabled(s, actions[0]) && CanRun(Step(s, actions[0]), actions[1..]))
  }

  function Reached(s: State, actions: seq<Action>): State
    requires CanRun(s, actions)
    decreases |actions|
  {
    if actions == [] then s else Reached(Step(s, actions[0]), actions[1..])
  }
}
