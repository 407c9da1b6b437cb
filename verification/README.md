# A verified model of the scheduler, serializer, MIME filters, buffered streams and binary packing

This project models the parts of the repository that keep state, in the form the source gives them, and proves what
they are for. Each core comes in two layers: the functions of the source, as methods that update arrays, tables and
fields, are proved against a simple specification; and the promises of the source are proved about that specification,
for every input, every interleaving and every way of cutting a stream.

`dafny verify dfyconfig.toml` checks everything.

## How the project is laid out

- `Bytes`, `Streams`: byte strings; machines that are fed one byte at a time and re-entered chunk after chunk.
- `LuatobinFormat`, `LuatobinWriter`, `LuatobinReader`, `LuatobinRoundTrip`, `LuatobinBytes`, `Endian`: the graph serializer. A value is
  a scalar, a string, or the identity of a table or function in a heap, so sharing and cycles are in the model. The
  reader works on one string or on a list of strings.
- `SchedModel` (a state machine over ready list, waiting table, cells, hooks), `SchedConservation`, `SchedQueues`,
  `SchedOrder`, `SchedWaits`, `SchedHooks`, `SchedGc` (what holds over all its runs), `Scheduler` (the tables of `sched/init.lua` and the functions
  that change them). What a task or a hook does between two switches is a script, and a signal comes with the scripts of
  the hooks it runs, nested to any depth; every theorem holds for all scripts.
- `Timers`, `LockModel` and `Locks`, `PipeModel` and `Pipe`: the primitives on top.
- `Ltn12`, `Ltn12Pump`, `MimeBase64`, `MimeQp`, `MimeQpTheorems`, `MimeText`, `MimeFilters`: filters, chains, pumps and
  the codecs; `MimeBase64Exact` and `MimeQpExact` say what each codec does to any input, with the tables written out. A filter is specified by what it owes after some input and what it owes for all of it; how much of that it
  returns at once is left open. The codecs of `mime.c` are put under `filter.cycle`, into chains, and pumped.
- `StreamModel`, `BufferedStream`: what reads and writes come to for any list of transport results, exactly, and the
  buffer and the retry loops that do it.
- `PackFormat`, `Pack`, `PackBytes`, `Lpack`: the format-string interpreters, and what each letter writes.

## Where the code does not do what it says

Each of these is kept as the code has it, with the exact condition under which the promise holds.

- `luatobin` decides that a number is an integer with the width of a Lua integer but writes 32 bits
  (`LuatobinRoundTrip.IntRoundTripIff`). A start offset on the end of a string of the list reads nothing
  (`LuatobinReader.FramesRefineConcat`, `LuatobinReader.FrameEndReadsNothing`).
- `sched.signal(emitter, "*")` goes through the wildcard queue twice, so hooks run twice
  (`SchedHooks.ExactlyOnceIff`; a run where it happens: `SchedHooks.StarRunsTwice`).
- A wait with two delays raises its error after the running task has been registered, and a wait in a hook, which is
  documented to trigger an error, does so too: the task goes on and is registered as well
  (`SchedConservation.StepConservesIff`, `SchedConservation.TwoDelaysBreak`, `SchedConservation.HookWaitBreaks`).
- `wait(emitter, {})` registers nowhere and never returns, where the documentation says that the task is put back at the
  end of the queue. A wait can return if and only if it lists an emitter and an event (`SchedWaits.WaitReturnsIff`,
  `SchedWaits.EmptyWaitSleeps`).
- A hook with once whose delay has elapsed is run before its cell is emptied: if it signals something it is registered
  for, it runs twice (`SchedHooks.ExpiredRuns`, `SchedHooks.ExpiredOnceIff`, `SchedHooks.RunsTwice`).
- A task that was woken from a lock and is killed before it runs loses the wake-up (`LockModel.KillWokenIff`,
  `LockModel.KillLosesWakeup`).
- A pipe's limit that is not a whole number from 1 on is never met, so never enforced (`PipeModel.BoundIff`);
  `setmaxlength(nil)` is documented to remove the limit but stops with an error (`PipeModel.ResizeIff`).
- Decoding in one call loses an output that starts with a NUL byte (`MimeBase64.OneShotIff`); used as filters, the
  decoders are exact. Quoted-printable lines shorter than 4 are broken inside a quoted byte (`MimeFilters.QpChainIff`).
- `pump.all` reports success when the sink refuses data without giving an error. Success means full delivery for every
  source if and only if the sink never refuses, or refuses with an error (`Ltn12Pump.ReliableIff`,
  `Ltn12Pump.SilentLoss`); with filters, `Ltn12Pump.PumpAll` says the same of each run.
- `receive("*a")` fails when a timeout comes between the last byte and the end of the connection, although it has read
  everything (`StreamModel.AllIff`, `StreamModel.LateEndFails`).
- `pack` writes the length of a string modulo what the count can hold, and a zero byte ends a `z` string
  (`Pack.RoundTripIff`).

## Model

| member | source | states |
|---|---|---|
| LuatobinWriter.Writer.VerifyCache | c/luatobin.c:85-101 | a known object gives its number and changes nothing; a new one gives 0 and gets the next number |
| LuatobinWriter.Writer.SerializeValue | c/luatobin.c:201-353 | the bytes appended for any value, with its shared and cyclic parts, are those the format prescribes, and so are the numbers given; errors in the same cases |
| LuatobinWriter.Writer.SerializeTable | c/luatobin.c:309-346 | the header, filled in afterwards, ends up in front of the entries with their count |
| LuatobinWriter.Serialize | c/luatobin.c:497-517 | the strings returned are never empty at the start, and their concatenation is the serialized object |
| LuatobinWriter.WriteThenRead | c/luatobin.c:497-567 | what is written is read back as an isomorphic graph, the same from the list of strings as from their concatenation, and the next index is one past the end |
| LuatobinReader.Reader.ReadObject | c/luatobin.c:157-193 | after a success the requested bytes are in the frame, which is still a prefix of the unread stream; it fails exactly when fewer bytes are left |
| LuatobinReader.Reader.DeserializeValue | c/luatobin.c:355-489 | the value, the rest of the stream, the cache and the index are what the concatenated stream says, however it is cut into frames |
| LuatobinReader.GetLocalIndex | c/luatobin.c:137-155 | the string of the list that holds a global index, and the place in it |
| LuatobinReader.Deserialize | c/luatobin.c:526-567 | one object from an offset: on a list of strings nothing is read if the offset is the end of one of them |
| LuatobinReader.FramesRefineConcat | c/luatobin.c:137-193 | a list of strings gives the same as its concatenation if and only if the offset is not the end of a string of the list, unless it is the end of all |
| LuatobinReader.FrameEndReadsNothing | c/luatobin.c:526-567 | two strings for which it does not |
| LuatobinBytes.PlainOnWire | c/luatobin.c:201-248 | nil is 00, a boolean 01 and 0 or 1, a double 03 and its eight bytes, an integer 07 and its value modulo 2^32 in network order |
| LuatobinBytes.NewOnWire | c/luatobin.c:249-308 | a string met for the first time is 04, its length in 16 bits and its bytes, a function 06 and its dump; it gets the next number; 65535 bytes are an error |
| LuatobinBytes.RefOnWire | c/luatobin.c:249-262 | one met before is 14 and its number |
| LuatobinBytes.TableOnWire | c/luatobin.c:309-346 | a table gets its number before its entries are written: 05, how many there are, and the entries; 65535 are an error |
| LuatobinBytes.EntriesOnWire | c/luatobin.c:327-336 | entries are written in turn, each key before its value |
| LuatobinBytes.ReadFromWire | c/luatobin.c:355-414 | what reading gives for any bytes that begin with one of these tags, with an unknown one, or end too early |
| LuatobinBytes.RefFromWire | c/luatobin.c:415-425 | a reference is the object with that number, or nil |
| LuatobinBytes.StringFromWire | c/luatobin.c:426-439 | a string of the length given, which gets the next number |
| LuatobinBytes.FunctionFromWire | c/luatobin.c:441-460 | the same for functions |
| LuatobinBytes.TableFromWire | c/luatobin.c:462-484 | a new table, numbered before its entries are read, as many as given |
| LuatobinBytes.ShortOnWire | c/luatobin.c:415-470 | without the whole length, or the bytes it counts, reading is an error |
| LuatobinBytes.PairFromWire | c/luatobin.c:476-483 | a key and then its value; nil and not-a-number are refused as keys |
| LuatobinBytes.NotANumber | c/luatobin.c:476-483 | eight bytes are not a number exactly when, the sign aside, they exceed those of infinity |
| LuatobinBytes.Stored | c/luatobin.c:476-483 | storing a pair sets that key only, the last one counts, and nil removes it |
| LuatobinRoundTrip.ReadBack | c/luatobin.c:201-489 | writer and reader stay in step: reading the bytes of any value gives it back up to a one-to-one renaming that extends the one built so far, whatever follows |
| LuatobinRoundTrip.RoundTrip | c/luatobin.c:201-489 | deserializing a serialized graph gives a graph of the same shape, sharing and cycles, and leaves what follows |
| LuatobinRoundTrip.SerSucceeds | c/luatobin.c:201-353 | serialization succeeds on every graph within the limits on lengths and on the number of objects |
| LuatobinRoundTrip.RoundTripWithinLimits | c/luatobin.c:201-489 | within those limits the round trip always succeeds |
| LuatobinRoundTrip.IntRoundTripIff | c/luatobin.c:237-248 | an integer comes back as itself if and only if it fits 32 bits |
| Endian.Hton | c/awt_endian.c:105-127 | the in-place swap for each host order is the reordering of the bytes for that order |
| Endian.ReorderedTwice | c/awt_endian.c:105-127 | the conversion is its own inverse, for every size and order |
| Endian.NetworkOrder | c/awt_endian.c:105-127 | the converted bytes, read most significant first, are the number the host held |
| Scheduler.Tasks.Run | sched/init.lua:504-516 | a new task is ready, once |
| Scheduler.Tasks.StepTasks | sched/init.lua:528-566 | tasks are resumed first in first out while some are ready, each up to its next switch or its end; one that is dead, or whose wait fails, has its end signalled; nothing happens while a task is running |
| Scheduler.TurnsConserve | sched/init.lua:528-566 | a pass of step keeps every task in exactly one place, if no wait fails too late |
| Scheduler.TurnsAreRuns | sched/init.lua:528-566 | a pass of step is a run that resumes one task for each turn, until none is ready |
| SchedOrder.StepExtends | sched/init.lua:504-926 | resuming takes the first of the ready list; everything else, whatever hooks do, only adds to its end |
| SchedOrder.FirstInFirstOut | sched/init.lua:528-566 | over every run, what is ready and then what gets ready is resumed in this order, and the rest is still ready |
| SchedOrder.ReadyFirst | sched/init.lua:528-566 | all that is ready at some moment is resumed next, in order |
| SchedOrder.YieldsToAll | sched/init.lua:836-846 | a task that calls wait() is resumed right after all that were ready then |
| SchedOrder.Adds | sched/init.lua:504-926 | what each kind of action other than a signal adds to the ready list; a delay that has elapsed wakes with "timeout" |
| SchedOrder.WaitIs | sched/init.lua:836-926 | a wait registers a new cell and gives the processor back; with several delays it fails and the task stays on it |
| SchedOrder.LateIs | sched/init.lua:836-871 | where the task cannot switch it stays on the processor, and from then on waits fail at once |
| SchedOrder.PlacesAre | sched/init.lua:722-778 | a cell is registered at each event named of each emitter, and at "timeout" if there is a delay, and nowhere else |
| SchedOrder.RegisteredAllQueue | sched/init.lua:755-778 | it queues up behind all cells that are there |
| SchedOrder.DeathWakes | sched/init.lua:553-557 | a task that waits for "die" of another one gets ready when that ends |
| SchedOrder.WildcardWakes | sched/init.lua:686-689 | one that waits for "*" gets ready at any event |
| SchedOrder.SignalKeepsHooks | sched/init.lua:662-685 | after a signal its hooks are back in their queues, in the order they had, those with once excepted |
| SchedOrder.RowsAfterGc | sched/init.lua:1081-1101 | a collection leaves no empty rows, but all of them while a signal is being processed |
| SchedOrder.RowsAfterPass | sched/init.lua:676-684 | nor does a pass over a queue |
| Scheduler.Tasks.RunCell | sched/init.lua:579-626 | one cell of a queue: an emptied one does nothing, a task is woken and the cell emptied, a hook is run and put back or emptied |
| Scheduler.Tasks.ParseQueue | sched/init.lua:661-685 | a pass over a queue: its cells in order, the new queue, and the rows dropped if nothing is left |
| Scheduler.Tasks.Signal | sched/init.lua:645-698 | both passes, then the woken tasks at the end of the ready list, with whatever the hooks did in between |
| Scheduler.Tasks.Register | sched/init.lua:722-778 | the cell is at the end of the queue of "timeout" if there is a delay, and of each event; a second delay is an error after the first has been registered |
| Scheduler.Tasks.Wait | sched/init.lua:836-926 | wait and multiWait: one new cell at all the places, and no task running, except after the error about delays |
| Scheduler.Tasks.LateWait | sched/init.lua:836-871 | a wait where the task cannot switch, as in a hook: registered all the same, and no running task on record, though it goes on |
| Scheduler.Tasks.SigHook | sched/init.lua:958-992 | sigHook and sigOnce: a new hook cell at all the places |
| Scheduler.Tasks.Timeout | sched/init.lua:745-750 | an elapsed delay wakes the task or runs the hook once, unless the cell has been emptied, and empties it |
| Scheduler.Tasks.Finish | sched/init.lua:555-557 | a task that ends is dead and its thread signals "die" |
| Scheduler.Tasks.Kill | sched/init.lua:1122-1128 | a killed hook's cell is emptied |
| Scheduler.Tasks.Gc | sched/init.lua:1081-1105 | exactly the emptied cells and those of dead tasks leave the queues; empty rows go unless a signal is being processed |
| SchedConservation.StepConservesIff | sched/init.lua:504-926 | an action keeps each live task running, or ready once, or in one cell, and dead ones nowhere, if and only if no wait in it fails after it has registered the task; if no hook waits, if and only if it is not a wait with two delays |
| SchedConservation.TwoDelaysBreak | sched/init.lua:740-747 | a wait with two delays that breaks it |
| SchedConservation.HookWaitBreaks | sched/init.lua:594-613 | so does a hook that waits, in every state where it is its turn |
| SchedConservation.RunConserves | sched/init.lua:504-926 | every run in which no wait has two delays and no hook waits keeps it |
| SchedConservation.WaitsReturnOnce | sched/init.lua:836-926 | in every run a task is resumed once for its start and once for each wait but the one it is in, however many of its events and timeouts come |
| SchedQueues.RunKeepsTasks | sched/init.lua:579-926 | in every state reached, a cell that is not emptied is in the queue of exactly the events it was registered for |
| SchedQueues.SignalWakes | sched/init.lua:645-698 | a signal puts every task that waits for it, or for any event of its emitter, into the ready list, once: no wake-up is lost, also when hooks act in between |
| SchedQueues.SignalInOrder | sched/init.lua:645-698 | a signal (other than "*" itself) whose hooks do nothing to the scheduler gets tasks ready in the order in which they began to wait, "*" first, each once, and runs the hooks in that order, those with once the first time only |
| SchedQueues.WakesOnlyOnSignal | sched/init.lua:579-926 | over every run a waiting task's cell is untouched until something it waits for is signalled or its delay has elapsed |
| SchedWaits.WaitReturnsIff | sched/init.lua:794-871 | the task that waits can be resumed again, by some run, if and only if the wait lists an emitter and an event or delay |
| SchedWaits.NeverReturns | sched/init.lua:722-778 | a task registered nowhere is never resumed, in any run |
| SchedWaits.EmptyWaitSleeps | sched/init.lua:836-871 | the first task, waiting for no event, is an instance |
| SchedHooks.SignalServes | sched/init.lua:579-698 | a signal runs a hook once for each registration at "*" and each at the event; persistent hooks keep their registrations, once hooks are run once and gone, and only killing makes it fewer |
| SchedHooks.ExactlyOnceIff | sched/init.lua:661-689 | each registration is run exactly once if and only if the event signalled is not "*" |
| SchedHooks.StarRunsTwice | sched/init.lua:645-698 | a run in which a hook for "*" runs twice for one signal |
| SchedHooks.OnceHooksRunOnce | sched/init.lua:579-626 | over every run a once hook runs at most once, and a killed or spent hook never, if none signals what it is registered for when its delay has elapsed |
| SchedHooks.NeverAgain | sched/init.lua:579-626 | a hook that was killed or is spent never runs again, in any run, whatever hooks do |
| SchedHooks.Kills | sched/init.lua:1122-1128 | killing a hook empties its cell and no other, as does a hook that kills itself; one that fails stays |
| SchedHooks.ExpiredRuns | sched/init.lua:745-750 | a once hook whose delay elapses runs twice if its script signals one of its places, and once if nothing done in turn does; in all cases twice exactly when it is gone after its script |
| SchedHooks.ExpiredOnceIff | sched/init.lua:745-750 | it runs once if and only if its script signals none of its places, unless hooks run in turn do |
| SchedHooks.RunsTwice | sched/init.lua:722-778 | a run of two actions in which it runs twice |
| SchedHooks.NewHook | sched/init.lua:958-992 | hooks made by sigHook and sigOnce are what the hook lemmas require |
| SchedGc.CollectedSame | sched/init.lua:1081-1105 | a collection changes nothing but emptied cells and empty rows |
| SchedGc.ApplySame | sched/init.lua:645-698 | signals and all other effects wake the same tasks and run the same hooks in the same order with and without collections inside them |
| SchedGc.GcUnobservable | sched/init.lua:1081-1101 | leaving out every collection of a run, also inside signals, gives a run that ends in the same ready list, cells and hook history |
| Timers.TimerQueue.AddEvent | sched/timer.lua:52-69 | the date is pending, and the list stays sorted and covers every pending date |
| Timers.TimerQueue.RemoveTimer | sched/timer.lua:81-91 | removes the timer's current date, and fails exactly when that is not pending |
| Timers.TimerQueue.Step | sched/timer.lua:97-117 | what step fires, in any order within a date, is a trace of a set of pending dates taken earliest first, and the queue and the timers' own dates are as at its end; afterwards nothing due is pending |
| Timers.TimerQueue.NextEvent | sched/timer.lua:140-142 | the date of the first timers due, or one from which the last timer has been removed; nothing is pending before it, and nothing at all if there is none |
| Timers.Balance | sched/timer.lua:52-134 | dates set are fired, cancelled, or still pending, each exactly once |
| Timers.WhatIsRegistered | sched/timer.lua:71-134 | a timer is registered for the date it was set to last, until it is cancelled or fires without being set again |
| Timers.NotEarly | sched/timer.lua:97-117 | no timer fires before its date |
| Timers.InDateOrder | sched/timer.lua:97-117 | timers fire in the order of their dates, except those set in the meantime |
| Timers.DueFiresOnce | sched/timer.lua:97-117 | a due timer that callbacks leave alone fires exactly once, and one cancelled before does not |
| LockModel.Safe | sched/lock.lua:126-192 | over every interleaving of acquire, release and death at most one task is between acquire and release, and a free lock with waiting tasks has one of them in the ready list |
| LockModel.AcquireIs | sched/lock.lua:162-175 | a lock that is free is taken at once, whoever waits for it; otherwise the task waits; other locks and tasks are not touched |
| LockModel.RetryIs | sched/lock.lua:168-174 | so it is for a task that was woken |
| LockModel.ReleaseIs | sched/lock.lua:180-192 | the lock is free, and a waiting task, if there is one, is in the ready list |
| LockModel.DieIs | sched/lock.lua:126-145 | a dead task owns nothing and waits for nothing, and other owners stay |
| LockModel.KillWokenIff | sched/lock.lua:126-192 | killing a woken task keeps that promise if and only if the lock has been taken meanwhile, nobody else waits, or another waiting task is woken |
| LockModel.KillLosesWakeup | sched/lock.lua:162-192 | three tasks for which it does not |
| Locks.LockTable.Acquire | sched/lock.lua:162-175 | the lock is taken, or the task is registered as waiting and asleep; acquiring a lock twice is an error that changes nothing |
| Locks.LockTable.Release | sched/lock.lua:180-192 | the lock is free, its owner no longer protected, and a waiting task, if any, is signalled; only the owner's release is accepted |
| Locks.LockTable.AutoRelease | sched/lock.lua:126-132 | every lock of a dead task is released, or no longer waited for, in any order |
| Locks.LockTable.Die | sched/lock.lua:126-145 | the death of a task is the step of the state machine |
| PipeModel.RunWakes | sched/pipe.lua:113-200 | at every switch the state field fits the length, a task blocked in receive means the pipe is empty, and one blocked in send that it is full, so the two never meet |
| PipeModel.ReceiveIs | sched/pipe.lua:153-174 | receive gives the first item if there is one, and otherwise waits, unless its time has run out |
| PipeModel.SendIs | sched/pipe.lua:179-200 | send waits exactly when there are as many items as the limit allows, unless its time has run out |
| PipeModel.PushbackIs | sched/pipe.lua:205-220 | an item put back becomes the first, unless there are as many as the limit allows |
| PipeModel.CallsReturn | sched/pipe.lua:153-200 | over every run each call is blocked, about to try again, or has returned exactly once, and none fails unless its time has run out |
| PipeModel.WakesAll | sched/pipe.lua:113-121 | an item into an empty pipe, or out of a full one, wakes everybody who is blocked |
| PipeModel.PushbackUndoes | sched/pipe.lua:153-220 | pushing back what was just received restores contents, limit and state; it is never refused when the limit was kept |
| PipeModel.FirstInFirstOut | sched/pipe.lua:153-200 | what is sent is received once and in order; the rest is in the pipe |
| PipeModel.RunWithin | sched/pipe.lua:153-256 | with whole limits the length never exceeds the limit, over every run |
| PipeModel.BoundIff | sched/pipe.lua:90-121 | the bound holds in every run if and only if the limit given to pipe() is a whole number from 1 on, or none |
| PipeModel.ResizeIff | sched/pipe.lua:246-256 | setmaxlength does what is documented if and only if it is given a number: one from 1 and the length on becomes the limit and the state follows, any other changes nothing |
| Pipe.PipeTable.Receive | sched/pipe.lua:153-174 | one round takes the first item, or blocks, or times out, as the list of items says; recompaction does not show |
| Pipe.PipeTable.Send | sched/pipe.lua:179-200 | one round appends the item unless the pipe is full |
| Pipe.PipeTable.Pushback | sched/pipe.lua:205-220 | the item becomes the first, unless the pipe is full |
| Pipe.PipeTable.Recompact | sched/pipe.lua:130-148 | the items stay, the waste is within its bounds, and what is moved has been paid for |
| Pipe.DefaultWaste | sched/pipe.lua:87-100 | by default cells are reclaimed when more than 32 are wasted and more than two for each one used |
| Pipe.PipeTable.MovedInAll | sched/pipe.lua:130-148 | all the elements ever moved are at most the items received divided by wasteprop |
| Pipe.PipeTable.SetMaxLength | sched/pipe.lua:249-256 | the limit is changed and the state follows, or nothing happens |
| Pipe.PipeTable.Peek | sched/pipe.lua:235-237 | the next item, if there is one |
| Ltn12.Chain.Call | ltn12.lua:40-67 | a chain of filters that keep the protocol is a filter that keeps it, and owes what the composition of the filters owes, for any sizes of what they return |
| Ltn12.ComposedMonotone | ltn12.lua:40-67 | the composition only ever adds to what it owes |
| Ltn12Pump.StringSource.Next | ltn12.lua:111-121 | the blocks returned are the string cut into blocks of 2048 bytes, then nil |
| Ltn12Pump.BlocksOf2048 | ltn12.lua:19-20 | the blocks have 2048 bytes, but for the last |
| Ltn12Pump.SourceChain.Next | ltn12.lua:138-183 | non-empty pieces of the filtered input in order, then nil when all of it has been returned; after a source error, all that was decided without the end |
| Ltn12Pump.SinkChain.Put | ltn12.lua:253-267 | the sink gets at once everything the filter owes for the chunk, or, if and only if it refuses, a part of it from the start |
| Ltn12Pump.PumpAll | ltn12.lua:273-291 | pumping stops; a sink that never refuses has the whole input through the filters of both ends, however the source cuts it; one that has refused has a part from the start, and that counts as a success exactly when it gave no error and no error of the source came with it |
| Ltn12Pump.PumpDirect | ltn12.lua:273-291 | without filters: exactly what the sink gets and what is returned, for every source and sink |
| Ltn12Pump.WhoseError | ltn12.lua:273-291 | a refusal ends the pumping with the sink's error, unless the source has ended with one of its own |
| Ltn12Pump.ReliableIff | ltn12.lua:273-291 | success means full delivery for every source if and only if the sink never refuses or refuses with an error |
| Ltn12Pump.SilentLoss | ltn12.lua:273-291 | a source for each other sink that loses data, with success reported |
| Ltn12Pump.SplitAnywhere | ltn12.lua:138-267 | it does not matter which filters of a row are chained to the source and which to the sink |
| Ltn12.Cycle.Filter | ltn12.lua:29-36 | a low-level filter called with the context of its last call answers as a filter of the protocol must, call after call |
| MimeFilters.AtomCycle | c/mime.c:255-328 | a cycled filter with undecided bytes keeps the filter protocol at every call |
| MimeFilters.CountCycle | c/mime.c:107-147 | so does one with a counter |
| MimeFilters.AllKeepTheProtocol | mime.lua:36-86 | this holds for all the filters of mime.lua |
| MimeFilters.NewAtom | mime.lua:36-60 | filter.cycle over such a machine, from the initial context, is a filter that can go into a chain |
| MimeFilters.NewCount | mime.lua:62-86 | so is one over a machine with a counter |
| MimeFilters.Base64Chain | mime.lua:36-77 | chained encoder, line wrapper and decoder give back every input, at any line length |
| MimeFilters.QpChainIff | mime.lua:40-77 | so do the quoted-printable ones for every input, in both modes, if and only if the line length is at least 4 |
| MimeFilters.Base64ThereAndBack | mime.lua:36-77 | any chunks, pumped through encoder and line wrapper at the source and the decoder at the sink, arrive as they were |
| MimeFilters.QpThereAndBack | mime.lua:40-77 | the same for quoted-printable, for lines of at least 4 |
| MimeFilters.StuffedMail | mime.lua:79-86 | text in any line-break convention, normalised at the source and stuffed at the sink, is the stuffed form of its lines, and unstuffs to them |
| Streams.AtomPumpIsWhole | c/mime.c:255-288 | re-entering a machine with its undecided bytes chunk by chunk gives what the whole input gives |
| Streams.CountPumpIsWhole | c/mime.c:107-147 | the same for machines with a counter |
| MimeBase64.MimeB64 | c/mime.c:255-288 | one call of the encoding filter, as a call of its byte machine |
| MimeBase64.MimeUnb64 | c/mime.c:296-328 | one call of the decoding filter |
| MimeBase64.MimeWrp | c/mime.c:107-147 | one call of the line wrapper |
| MimeBase64.B64Encode | c/mime.c:165-183 | three bytes become the four characters of their 24 bits |
| MimeBase64.B64Pad | c/mime.c:190-214 | one or two last bytes become characters and padding |
| MimeBase64.B64Decode | c/mime.c:221-244 | four characters become one to three bytes; others are skipped |
| MimeBase64.EncoderFilter | c/mime.c:165-288 | the filter's output over any chunks is the one-shot Base64 form of the whole input |
| MimeBase64.RoundTrip | c/mime.c:107-328 | decoding gives the input back, wrapped at any length or not, for any chunks at each of the three filters |
| MimeBase64.WrappedLines | c/mime.c:107-147 | wrapped text is CRLF-terminated lines of at most the given length |
| MimeBase64.OneShotIff | c/mime.c:296-328 | encoding in one call is exact; decoding in one call is if and only if the first byte is not NUL |
| MimeBase64Exact.EncodedText | c/mime.c:74-214 | for every input and chunking: each three bytes become the four letters A-Z, a-z, 0-9, + and / of their sextets, with "=" for what is missing (section 4 of RFC 4648) |
| MimeBase64Exact.WrapsExactly | c/mime.c:107-147 | text without breaks is cut into lines of exactly the given length, but for the last |
| MimeBase64Exact.BreakKept | c/mime.c:107-147 | a line break of the text ends the line |
| MimeBase64Exact.DecodedText | c/mime.c:221-244 | for every input, encoded or not: other characters are skipped, and each four are three bytes, or fewer where "=" stands |
| MimeQp.QpEncode | c/mime.c:380-418 | the loop over the pending bytes leaves and emits what the classes of the bytes say |
| MimeQp.QpPad | c/mime.c:423-432 | pending bytes at the end are quoted where needed, with a soft break |
| MimeQp.QpDecode | c/mime.c:483-508 | one more byte of the decoder |
| MimeQp.MimeQpEncode | c/mime.c:442-477 | one call of the encoding filter |
| MimeQp.MimeQpDecode | c/mime.c:517-549 | one call of the decoding filter |
| MimeQp.MimeQpWrp | c/mime.c:560-607 | one call of the quoted-printable line wrapper |
| MimeQpTheorems.EncoderReplays | c/mime.c:380-418 | feeding the pending bytes again gives the same pending bytes and no output |
| MimeQpTheorems.Encodes | c/mime.c:380-477 | the encoded text is a sequence of well-formed tokens that stands for the input |
| MimeQpTheorems.Wraps | c/mime.c:560-607 | wrapping inserts soft breaks between tokens and nothing else |
| MimeQpTheorems.RoundTrip | c/mime.c:380-607 | decoding gives the input back, wrapped at any length from 4 on or not, in both modes, for any chunks at each of the three filters |
| MimeQpTheorems.WellFormed | c/mime.c:346-607 | every line is at most the given length, no quoted byte is split, every "=" is followed by two upper-case hexadecimal digits or ends the line, and no line ends with a space (section 6.7 of RFC 2045) |
| MimeQpExact.EncodedText | c/mime.c:343-432 | for every input and chunking, exactly which bytes are quoted: not 33-60 and 62-126, nor a space or tab that two more bytes follow which are not CR LF; CR LF becomes the marker, and undecided bytes at the end a soft break |
| MimeQpExact.LiteralText | c/mime.c:343-432 | so text of 33-60 and 62-126 only is emitted as it is |
| MimeQpExact.WrapsExactly | c/mime.c:560-607 | lines are as full as they can be: a token goes on the line if a soft break still fits behind it |
| MimeQpExact.DecodedText | c/mime.c:483-508 | what is decoded from any input, encoded or not, with digits of either case |
| MimeQpExact.OneDecoding | c/mime.c:483-508 | and that there is no other reading |
| MimeText.MimeDot | c/mime.c:671-710 | one call of the dot-stuffing filter |
| MimeText.Transparent | c/mime.c:671-710 | removing one leading dot from each line of the stuffed text gives the input back, for any chunks (section 4.5.2 of RFC 5321) |
| MimeText.OnlyOneEnd | socket/smtp.lua:58-64 | the end-of-mail mark occurs in the stuffed mail only at its end |
| MimeText.StuffedText | c/mime.c:671-710 | for every input and chunking each dot at the start or right after CR LF is doubled, and nothing else changes |
| MimeText.MimeEol | c/mime.c:621-666 | one call of the end-of-line filter |
| MimeText.Normalises | c/mime.c:609-666 | text in any of the four line-break conventions comes out with the marker for each break, for any chunks |
| MimeText.NormalText | c/mime.c:609-666 | for every input: two break bytes in a row are one break if they differ and two if they are the same |
| BufferedStream.Stream.BufferGet | c/socket/buffer.c:259-272 | data is available if there is any before the transport's next failure; otherwise that failure is the result; received plus buffered equals taken |
| BufferedStream.Stream.RecvRaw | c/socket/buffer.c:186-199 | exactly the bytes asked for if they come before the next failure, and else all there are and that failure; the rest is left |
| BufferedStream.Stream.RecvAll | c/socket/buffer.c:204-218 | everything before the next failure, a success exactly when that is the end and there was something |
| BufferedStream.Stream.RecvLine | c/socket/buffer.c:224-242 | the bytes up to the first line feed, without CRs, if one comes before the next failure |
| BufferedStream.Stream.TcpReceive | socket/platform.lua:111-152 | for every list of transport results and waits: the reply, the bytes read and what is left are those of the retried calls |
| BufferedStream.PlainReply | socket/platform.lua:111-152 | what is returned for a count, "*a" or "*": the bytes behind the prefix, or with the failure those read until then, if any |
| BufferedStream.LineReply | c/socket/buffer.c:224-242 | for a line: without its end, LF or CR LF |
| StreamModel.NothingLost | socket/platform.lua:111-152 | whatever happens, the bytes read and those left are the stream |
| StreamModel.CountIff | socket/platform.lua:111-152 | a count succeeds if and only if that many bytes, and at least one, come before the first failure that is not overcome, and gets the first n; otherwise it gets all there are and that failure |
| StreamModel.LineIff | socket/platform.lua:111-152 | a line is read if and only if a line feed comes before that failure |
| StreamModel.AllIff | socket/platform.lua:111-152 | "*a" succeeds if and only if the connection ends and bytes came since the last timeout; it gets everything in any case |
| StreamModel.LateEndFails | c/socket/buffer.c:204-218 | one byte, a timeout and the end, for which it fails |
| StreamModel.AnyIff | socket/platform.lua:111-152 | "*" gets the first bytes that come in one go, and succeeds if and only if a timeout or the end follows |
| StreamModel.HearsAll | socket/platform.lua:111-152 | when no wait fails, all bytes before a failure other than a timeout are heard, however they are cut and delayed |
| StreamModel.SameForEveryCut | c/socket/buffer.c:186-242 | so a count or a line that the stream holds before such a failure is read whole, and the same, for every fragmentation and every pattern of timeouts |
| BufferedStream.Stream.SendRaw | c/socket/buffer.c:167-181 | the bytes given to the transport, in steps, up to its first failure |
| BufferedStream.Stream.Send | c/socket/buffer.c:76-106 | the range that the two indices stand for is sent, from its start, and the index of the last byte sent is returned |
| BufferedStream.Stream.TcpSend | socket/platform.lua:90-109 | for every list of transport results and waits, data is emitted once and in order, as far as the retried calls come: without failure bytes i to j, and all of it when there are no indices |
| BufferedStream.Range | c/socket/buffer.c:84-90 | indices i to j are the bytes from the i-th to the j-th |
| BufferedStream.NegativeIndex | c/socket/buffer.c:86-87 | -1 is the last byte, -k the k-th from the end, at both ends |
| BufferedStream.OutsideRange | c/socket/buffer.c:84-90 | indices outside are moved to the ends, and an empty range sends nothing |
| StreamModel.SendIff | socket/platform.lua:90-109 | sending succeeds if and only if the transport takes that much before the first failure that is not overcome; otherwise all it takes has been sent, and the result is that failure |
| StreamModel.SendsAll | socket/platform.lua:90-109 | when no wait fails, that is all it takes before a failure other than a timeout |
| StreamModel.OfferedInSteps | c/socket/buffer.c:163-181 | the transport is offered 8192 bytes at a time |
| PackFormat.DoSwap | c/lpack.c:103-125 | the in-place swaps for a flag |
| PackFormat.SwappedTwice | c/lpack.c:103-125 | for each of the four flags swapping is its own inverse |
| PackFormat.IntRoundTrip | c/lpack.c:127-153 | an integer in range survives writing and reading with every size, sign, byte order and host |
| PackBytes.Order2 | c/lpack.c:91-125 | on every host "<" and "{" write two bytes lowest first, ">" and "}" highest first, "=" as the host has them |
| PackBytes.Order4 | c/lpack.c:91-125 | four bytes likewise with "<", ">" and "="; "{" and "}" also exchange the bytes of each half |
| PackBytes.IntegerCodes | c/lpack.c:348-405 | the range and size of b, c, h, H, i and I |
| PackBytes.StringCodes | c/lpack.c:304-314 | z, p and P: a zero byte behind, or the length in one or two bytes in front |
| PackBytes.BoolCode | c/lpack.c:316-332 | x: eight booleans in a byte, the first the lowest bit |
| PackBytes.LetterInFormat | c/lpack.c:353-372 | counts in decimal, 1 when there is none; order codes, blanks and multiples of eight for x |
| PackBytes.OtherLetters | c/lpack.c:283-286 | other letters are errors |
| PackBytes.Unterminated | c/lpack.c:257-265 | a zero-terminated string without terminator is read to the end |
| PackBytes.ItemsInTurn | c/lpack.c:348-410 | items are written one after the other, each from the values that are left |
| Pack.RoundTripIff | c/lpack.c:213-410 | unpack gives back what was packed, and the position behind it, if and only if no "z" string has a zero byte and every counted string's length fits its count |
| Pack.Truncated | c/lpack.c:213-293 | without "z", any truncation gives the values of the whole items in front and the position where the first one that is not whole begins |
| Lpack.LPack | c/lpack.c:348-410 | the interpreter writes the items of the format, with counts and the byte order in force; errors in the same cases |
| Lpack.LUnpack | c/lpack.c:213-293 | the interpreter reads the items of the format until they or the bytes are exhausted |
| Lpack.PackThenUnpack | c/lpack.c:213-410 | both together, from a format string |

## Left out

- LuatobinWriter.Writer.SerializeValue: does not model the wrap-around of the 16-bit object counter; beyond 65535 objects the model stops with an error of its own.
- LuatobinWriter.Writer.SerializeTable: does not model a table whose number of entries changes while it is traversed.
- LuatobinReader.Deserialize: does not model more than one object per call, where a list of strings stops at the end of a string; nor a failing `lua_load`, and function bodies are opaque strings.
- Scheduler.Tasks.Signal: does not model a hook that signals, in turn, an emitter whose signal is being processed: there the code puts hooks into a queue that nobody reads any more. The hook lemmas say so with `Polite`.
- Scheduler.Tasks.Kill: does not model killing another task.
- Scheduler.Tasks.StepTasks: does not model the flag that says whether a collection is due; collections may happen anywhere in the model. A task that calls step itself after one of its waits has failed is not modelled.
- Scheduler.Tasks.ParseQueue: puts hooks into the row of the table, not into the list object the pass has made, which differs only for a nested signal of the same emitter.
- SchedHooks.SignalServes: asks that hooks do not signal, in turn, an emitter being signalled; so do the other lemmas about hooks.
- Scheduler.Tasks.Timeout: leaves open when delays elapse, which is the subject of `Timers`; the two are not composed.
- Extra arguments of signals and hooks, the text of error messages, sigRun and sigRunOnce (a hook that starts a task), weak tables and tracing.
- Timers.TimerQueue.AddEvent: does not model dates that are also indices of the list part of the same Lua table.
- Locks.LockTable.Acquire: does not model destroy; locks attached to objects and synchronized functions are calls of acquire and release.
- PipeModel.RunWakes: does not model reset, nor hooks on the pipe's state signal.
- Pipe.PipeTable.Pushback: moving all elements when nothing is wasted is not counted among the elements recompaction moves.
- source.file, source.simplify, source.rewind, source.cat and the other sinks of `ltn12.lua`.
- BufferedStream.Stream.TcpReceive: takes the transport's recv and send as lists of results in which failures carry no bytes; the prefix argument of the underlying receive is not modelled, since the retry layer does not use it.
- Lpack.LUnpack: does not model a start position below 1, nor the codes named for `Lpack.LPack`.
- Lpack.PackThenUnpack: does not model those codes either.
- Lpack.LPack: does not model the codes `A`, `a`, `f`, `d`, `n`, `l` and `L`, conversions of strings to numbers, nor counts that overflow an int; a number out of the code's range is undefined in C and an error in the model.
- Stack limits, memory and the Lua C API itself.
