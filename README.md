# synchrotron: a single-threaded busy-wait executor, modelled in Dafny

This project models the core of `synchrotron`, a single-threaded cooperative executor for
`futures` 0.1 tasks, and proves properties of the model. There are three parts:

- **The executor** (`src/lib.rs`). A `Core` owns an arena of auxiliary tasks and a
  duplicate-free ready queue of task ids. Id 0 is the main task; id `i + 1` is arena slot `i`.
  Each task has a wake ticket that queues its id (`unpark`) or takes it out (`deactivate`).
  A `Handle` refers to the core without owning it and spawns tasks into it. `Core::run` pops
  ids and polls the main task or an auxiliary task until the main task resolves.
- **The drop-off cell** (`src/drop_off.rs`). A single-threaded one-shot channel. The receiver
  owns the cell, and the sender only refers to it.
- **The spawn-and-collect adapter** (`src/spawn_future.rs`). `SpawnFuture` spawns a
  `SpawnedFuture` wrapper on its first poll. The wrapper forwards the inner future's outcome
  through a drop-off cell and wakes the waiting task.

Files: `prelude.dfy` (`Option`, `Result`; `Async`, poll answers and the task handle of
`futures`), `spawn_id.dfy`, `index_queue.dfy` (the ready queue), `arena.dfy` (the task
store), `executor.dfy`, `drop_off.dfy` and `spawn_future.dfy`.

Modelling choices:

- **Tasks are abstract.** A task is a value of a type parameter. Polling it is a function that
  returns three things: the answer, the task's next state, and the effects the poll had on
  the executor. An effect is either an `unpark` of the task's own ticket or a reentrant
  `Handle::spawn`.
- **State changes live in classes.** The executor's state is in the `Core` class: an arena of
  `Entry<Option<Spawned>>`, the shared `IndexQueue` object, and an `alive` flag that stands
  for the owning `Rc`. The class's methods are proved against spec functions over the
  abstraction `Store(slots, queue)`. `Core.Valid` ties every stored ticket to its own slot
  and to the shared queue.
- **The drop-off cell** is a class with three fields: `cell`, `senderAlive` and
  `receiverAlive`. A ghost count of writes shows that at most one value is ever stored.
- **The adapter** is a class with a `State` field. Its poll does what
  `mem::replace(.., Invalid)` does in the source.
- **`Invalid` is more than a transient state.** The adapter is left `Invalid` after it has
  handed out its result (`src/spawn_future.rs:102`), so polling it again panics. The model
  keeps this behaviour of the code and does not reset the adapter.

## Model

| member | source | states |
|---|---|---|
| `SpawnIds.FromQueueIndex` | src/lib.rs:37-40 | requires the index not to be `!0`; the id gives back that queue index |
| `SpawnIds.Aux` | src/lib.rs:50-53 | requires `aux_index < !0 - 1`; the id of a slot is a valid queue index (never `!0`) |
| `SpawnIds.Main` | src/lib.rs:46-48 | the main task's id is queue index 0 |
| `SpawnIds.SpawnId.ToAux` | src/lib.rs:55-61 | gives `None` exactly for the main id |
| `SpawnIds.AuxToAux` | src/lib.rs:46-61 | `to_aux(aux(i)) == Some(i)` and no auxiliary id equals the main id |
| `SpawnIds.MainToAux` | src/lib.rs:46-48 | `to_aux(main()) == None` |
| `SpawnIds.ToAuxInverse` | src/lib.rs:55-61 | every non-main id is `aux` of the slot `to_aux` gives |
| `SpawnIds.AuxInjective` | src/lib.rs:50-53 | distinct slots get distinct ids |
| `IndexQueues.PushedBack` | src/lib.rs:101 | `push_back(x)` queues `x`, adds nothing else, keeps the queue duplicate-free, and does nothing if `x` is queued |
| `IndexQueues.Removed` | src/lib.rs:92 | `remove(x)` keeps exactly the entries other than `x` and keeps the queue duplicate-free |
| `IndexQueues.RemovedAbsent` | src/lib.rs:89-94 | removing an id that is not queued leaves the queue as it was |
| `IndexQueues.RemovedAt` | src/lib.rs:89-94 | deactivating cuts out only the ticket's entry and keeps the other entries in order |
| `IndexQueues.NoDupOnce` | src/lib.rs:122 | a duplicate-free queue holds each queued id exactly once |
| `IndexQueues.PushedBackOnce` | src/lib.rs:97-104 | after `unpark` the id is queued exactly once; unparking twice gives the same queue as once |
| `IndexQueues.RemovedAfterPush` | src/lib.rs:213-218 | a self-wake followed by deactivation leaves the queue as deactivation alone would |
| `IndexQueues.IndexQueue.PushBack` | src/lib.rs:101 | the queue becomes `PushedBack` of the old queue and stays duplicate-free |
| `IndexQueues.IndexQueue.Remove` | src/lib.rs:92 | the queue becomes `Removed` of the old queue and stays duplicate-free |
| `IndexQueues.IndexQueue.PopFront` | src/lib.rs:193 | `None` on an empty queue, else the oldest id, which is taken off the front |
| `Arenas.VacantIndex` | src/lib.rs:165 | `insert` picks a vacant slot or a new one at the end |
| `Arenas.Inserted` | src/lib.rs:165 | `insert` fills exactly that slot and changes no other |
| `Arenas.Get` | src/lib.rs:209-210 | `get_mut` gives the value exactly of an occupied slot |
| `Arenas.Freed` | src/lib.rs:218 | `remove` makes the slot vacant and changes no other |
| `Futures.Outcome` | src/spawn_future.rs:32-36 | `Ready(x)` becomes `Ok(x)` and an error stays that error |
| `Futures.Waker.Unpark` | src/spawn_future.rs:40 | the parked task gets one more wake-up |
| `Executor.Ticket.Unpark` | src/lib.rs:97-104 | queues the ticket's id with `push_back`; the queue stays duplicate-free |
| `Executor.Ticket.Deactivate` | src/lib.rs:89-94 | removes the ticket's id from the queue; the queue stays duplicate-free |
| `Executor.DeactivateThenUnpark` | src/lib.rs:88-104 | deactivation does not clear the ticket's queue, so a later `unpark` queues the id again |
| `Executor.Core.constructor` | src/lib.rs:119-123 | a new core has no tasks and an empty queue |
| `Executor.Core.Handle` | src/lib.rs:181-183 | the handle refers to this very core |
| `Executor.Core.Drop` | src/lib.rs:176 | once the owning `Rc` is gone, the core is dead and holds no tasks |
| `Executor.Core.NewTicket` | src/lib.rs:126-133 | a fresh ticket for the id, sharing the core's queue, with the id queued afterwards |
| `Executor.Core.SpawnTask` | src/lib.rs:164-170 | the store becomes `SpawnSpec` of the old one; occupied slots are untouched |
| `Executor.Handle.Spawn` | src/lib.rs:159-171 | a dead core is left unchanged; a live one ends in `SpawnSpec` of its old store. Requires that the slot `insert` picks has an auxiliary id (the `debug_assert` at line 51) |
| `Executor.SpawnSpec` | src/lib.rs:164-170 | `None` exactly when the slot `insert` picks has no auxiliary id; otherwise the arena grows by at most one slot and the queue stays duplicate-free and in range |
| `Executor.SpawnTouchesOneSlot` | src/lib.rs:164-170 | a spawn fills exactly one previously vacant slot `aux` with the task, changes no other slot, and queues `aux + 1` |
| `Executor.EffectSpec` | src/lib.rs:159-171 | a self-wake (`unpark`, lines 97-104) never fails; a spawn fails exactly when its slot has no id; neither touches an occupied slot, and the queue stays duplicate-free and in range |
| `Executor.EffectsSpec` | src/lib.rs:159-171 | what a poll does through its ticket and handles never touches an occupied slot and keeps the queue duplicate-free and in range; only a spawn can fail |
| `Executor.Core.ApplyEffects` | src/lib.rs:212-214 | a poll's effects take the store to `EffectsSpec`, and report an overflow exactly when `EffectsSpec` fails |
| `Executor.AuxStepSpec` | src/lib.rs:208-225 | the arena never shrinks, and the queue stays in range |
| `Executor.Core.PollAux` | src/lib.rs:208-225 | the store becomes `AuxStepSpec`, with an overflow exactly when `AuxStepSpec` fails; a not-ready task goes back into its own slot with its own ticket |
| `Executor.Core.PollTaken` | src/lib.rs:211-221 | after the poll: done means the ticket is deactivated and the slot freed; not ready means the same slot is restored |
| `Executor.AuxReadyFreesSlot` | src/lib.rs:216-218 | a finished auxiliary task's slot is vacant and its id is no longer queued |
| `Executor.AuxNotReadyRestores` | src/lib.rs:219-221 | a not-ready auxiliary task goes back into its own slot, whatever it spawned meanwhile |
| `Executor.AuxEmptySlotRemoved` | src/lib.rs:222-224 | an id whose slot is empty or missing only removes that slot |
| `Executor.AuxStepKeepsOthers` | src/lib.rs:208-225 | an auxiliary turn leaves every other occupied slot as it was and keeps the queue duplicate-free |
| `Executor.MainStepSpec` | src/lib.rs:199-207 | fails exactly when the poll's effects fail; the queue stays in range |
| `Executor.MainStepDequeues` | src/lib.rs:199-207 | the main id is dequeued exactly when the main task is ready; otherwise only the poll's effects happen |
| `Executor.MainProgress` | src/lib.rs:199-207 | per answer, both ways: `Ok(Ready(x))` exactly when the turn is `Done(Ok(x))` (the `return`); `Err(e)` exactly when it is `Done(Err(e))` (the `?`); `Ok(NotReady)` exactly when it goes on with the main task's next state |
| `Executor.TurnProgress` | src/lib.rs:190-207 | an empty queue spins and only then; a turn never reports an overflow by itself; `Done` only on the main id with a resolved poll; an auxiliary id goes on with the same main task |
| `Executor.Turn` | src/lib.rs:190-226 | a turn that does not fail reports `TurnProgress` of the queue's head and the main poll, and keeps every queued index valid |
| `Executor.TurnOfBehaves` | src/lib.rs:190-226 | the executor's turn, as a function of store and main state, keeps the queue in range and reports `TurnProgress` from every store |
| `Executor.Core.Step` | src/lib.rs:191-226 | the new store and the progress are `Turn` of the old store, and `Overflow` comes exactly when `Turn` fails; `Done(Ok)` leaves id 0 unqueued |
| `Executor.RunSpecKeepsQueueInRange` | src/lib.rs:187-228 | for any turn that keeps the queue in range, every index the run leaves queued is a valid one |
| `Executor.ResolvesAfterOneMore` | src/lib.rs:199-206 | a main poll that is not ready adds one wait in front of the resolution of the next state |
| `Executor.RunReturnsFirstResolution` | src/lib.rs:199-206 | for any turn that reports `TurnProgress`, a run that finishes returns the answer of the main task's first resolving poll: the `waits` polls before it were all not ready, each on the state the previous poll left |
| `Executor.Core.RunLoop` | src/lib.rs:190-228 | the loop's outcome, final store and count of not-ready main polls are `RunSpec` of the executor's turn from the current store; after `Done(Ok)`, id 0 is not queued |
| `Executor.Core.Run` | src/lib.rs:187-228 | the outcome, the final store and the count of not-ready main polls are `RunSpec` of the executor's turn from the store with the main id queued (line 189); a finished run satisfies `ResolvesAfter`: it returns the first resolving answer of the main task advanced poll by poll from `main`; after `Ok`, id 0 is not queued |
| `Executor.OutlivedTurns` | src/lib.rs:190-226 | the two turns of the scenario below, on the store: the background task is polled and restored, then the main task finishes with 7 |
| `Executor.OutlivedBackgroundTask` | src/lib.rs:187-228 | a never-finishing background task is polled and put back, and the main task still finishes with its value |
| `DropOff.Channel.constructor` | src/drop_off.rs:61 | an empty cell, both halves alive, nothing written |
| `DropOff.New` | src/drop_off.rs:60-63 | a fresh empty cell shared by both halves, both alive |
| `DropOff.Sender.Send` | src/drop_off.rs:24-32 | with the receiver alive, stores the value and gives `Ok(())`; otherwise gives back `Err(value)` and writes nothing; the sender is used up |
| `DropOff.Sender.Drop` | src/drop_off.rs:19 | dropping the sender changes only its liveness |
| `DropOff.Receiver.Take` | src/drop_off.rs:44-56 | a stored value comes out as `Ok` and the cell is left empty; an empty cell gives back the same receiver while the sender lives, else `Err(None)` |
| `DropOff.Receiver.Drop` | src/drop_off.rs:37 | dropping the receiver changes only its liveness |
| `DropOff.DocExample` | src/drop_off.rs:8-11 | `take` gives `Err(Some)`, then `send(42)` gives `Ok`, then `take` gives 42, and the value cannot be seen again |
| `DropOff.SenderGoneFirst` | src/drop_off.rs:47-52 | with the sender dropped and nothing sent, `take` gives `Err(None)` |
| `DropOff.ReceiverGoneFirst` | src/drop_off.rs:25-26 | with the receiver dropped, `send(7)` gives back `Err(7)` |
| `SpawnFutures.SpawnedFuture.constructor` | src/spawn_future.rs:105-109 | the wrapper holds the future, `Some(sender)` and the parked task |
| `SpawnFutures.SpawnedFuture.Poll` | src/spawn_future.rs:31-42 | not ready: nothing sent, the sender kept. Resolved: the outcome is sent (failure ignored), the sender becomes `None`, the task is woken once, and the result is `Ready(())`. Polling again needs a sender |
| `SpawnFutures.SpawnFuture.constructor` | src/spawn_future.rs:81-83 | a new adapter is `Starting` |
| `SpawnFutures.SpawnFuture.Poll` | src/spawn_future.rs:101-125 | Starting: spawns one wrapper with a fresh sender and moves to `Waiting`, not ready. Waiting: `Ok(item)` gives `Ready(item)`, `Err(e)` gives `Err(e)`, and an empty cell keeps the same receiver, not ready. Never `Invalid` after a not-ready poll; `Invalid` or a dropped sender is excluded by the precondition |
| `SpawnFutures.CollectRoundTrip` | src/spawn_future.rs:101-125 | first poll not ready; the wrapper polled in its slot forwards 5; the second poll is `Ready(5)` |

## Left out

- Locking: the `Mutex` and `Arc` around tickets and the queue, and `unpark` from other threads, are not modelled. The queue is a plain field of one shared object.
- The `futures` crate (`Spawn`, `poll_future`, `task::park`, `Task::unpark`) is not part of this model. Tasks are poll functions over a task state, and a parked task is a counter of wake-ups.
- The internals of `index_queue::IndexQueue` and `vec_arena::Arena` are not part of this model. Their behaviour is assumed, not verified: a duplicate-free FIFO; `insert` takes the lowest vacant slot or appends; `remove` of a vacant slot does nothing.
- Reference counts (`upgrade`, `Rc::weak_count`) are reduced to liveness flags.
- `Debug` and `DebugWith` only format output. The "inactive" ticket branch cannot be reached.
- Executor.Core.Run: the source spins for ever on an empty queue. The model takes at most `fuel` turns and then reports `OutOfFuel`.
- Executor.Core.ApplyEffects: a spawn whose slot (the one `insert` picks) has no auxiliary id ends the turn with `Overflow`, where a debug build's `debug_assert` panics. Release builds do not check. The slot is checked before it is filled, where the source fills it first; after an overflow the model does not say what the store holds.
- Poll effects cover only a task's own wake-up and its spawns. Wakes through other tasks' tickets are not modelled, whether they come from another task, another thread or a stale ticket kept after completion.
- Executor.Core.Run polls tasks through pure poll functions, so it cannot drive a `SpawnedFuture`, which writes a cell when polled. The wrapper's poll is verified on its own, and `CollectRoundTrip` polls it from its arena slot in the executor's place.
- Executor.Core.Drop: dropping the core's tasks does not drop the senders of wrappers among them, so a receiver never learns that its wrapper is gone. When a spawn meets a dead core, the adapter does drop the wrapper's sender.
- `run_future` and `turn` are called from `benches/busy.rs` but are not defined in `src/lib.rs`; they and the pollable `Core` are not modelled.
- The test and benchmark harnesses (`tests/simple.rs`, `benches/busy.rs`) are not modelled; they use threads, sleeps and tokio.
