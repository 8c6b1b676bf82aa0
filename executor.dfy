/**
 * The busy-wait executor: wake tickets, the `Core` that owns the task arena and
 * the ready queue, the `Handle` that spawns into it, and the loop of `run`.
 *
 * Tasks are abstract: a task is a value of some type, and polling it is a
 * function that gives its answer, its next state and what it did while it ran
 * (woke itself through its ticket, spawned more tasks through a handle).  The
 * state of the executor is summarised by `Store`: the arena seen through the
 * tasks it holds, and the queue.  Tickets need no place in the summary because
 * `Core.Valid` pins every stored ticket to its slot.
 */
module Executor {
  import opened Prelude
  import opened Futures
  import opened SpawnIds
  import opened IndexQueues
  import opened Arenas

  /** Something a task does to the executor while it is being polled. */
  datatype Effect<+A> =
    | WakeSelf        // `unpark` on the ticket the task is polled with
    | Spawn(task: A)  // `Handle::spawn` of a new auxiliary task

  /** One poll of an auxiliary task: its status (its error type is empty), its next state and its effects. */
  datatype AuxPolled<A> = AuxPolled(status: Async<()>, next: A, effects: seq<Effect<A>>)

  /** One poll of the main task: its answer, its next state and its effects. */
  datatype MainPolled<M, A, T, E> = MainPolled(answer: Result<Async<T>, E>, next: M, effects: seq<Effect<A>>)

  /**
   * A wake ticket: the id of its task and the queue it wakes it into.  The
   * queue is optional as in the source, though every ticket is made with one
   * and keeps it, so `Deactivate` never stops a later `Unpark`.
   */
  class Ticket {
    const id: SpawnId
    const queue: IndexQueue?

    constructor (id: SpawnId, queue: IndexQueue)
      ensures this.id == id && this.queue == queue
    {
      this.id := id;
      this.queue := queue;
    }

    /** Takes the ticket's id out of the queue, wherever it is. */
    method Deactivate()
      requires queue != null ==> queue.Valid()
      modifies queue
      ensures queue != null ==> queue.Valid() && queue.items == Removed(old(queue.items), id.ToQueueIndex())
    {
      if queue != null {
        queue.Remove(id.ToQueueIndex());
      }
    }

    /** Queues the ticket's id unless it is queued already. */
    method Unpark()
      requires queue != null ==> queue.Valid()
      modifies queue
      ensures queue != null ==> queue.Valid() && queue.items == PushedBack(old(queue.items), id.ToQueueIndex())
    {
      if queue != null {
        queue.PushBack(id.ToQueueIndex());
      }
    }
  }

  /** An auxiliary task in the arena, with its ticket. */
  datatype Spawned<A> = Spawned(task: A, ticket: Ticket)

  /** The executor's state as the tasks in the arena and the queue. */
  datatype Store<A> = Store(slots: seq<Entry<Option<A>>>, queue: seq<nat>)

  function TaskOf<A>(e: Entry<Option<Spawned<A>>>): Entry<Option<A>>
  {
    match e
    case Vacant => Vacant
    case Occupied(None) => Occupied(None)
    case Occupied(Some(s)) => Occupied(Some(s.task))
  }

  function Tasks<A>(spawns: seq<Entry<Option<Spawned<A>>>>): (r: seq<Entry<Option<A>>>)
    ensures |r| == |spawns|
    ensures forall i :: 0 <= i < |spawns| ==> r[i] == TaskOf(spawns[i])
  {
    seq(|spawns|, i requires 0 <= i < |spawns| => TaskOf(spawns[i]))
  }

  /** Every queued index is a valid queue index. */
  predicate InRange(q: seq<nat>)
  {
    forall k :: 0 <= k < |q| ==> q[k] < UsizeMax
  }

  lemma InRangeMembers(q: seq<nat>)
    ensures InRange(q) <==> forall x :: x in q ==> x < UsizeMax
  {
    if InRange(q) {
      forall x | x in q ensures x < UsizeMax {
        var k :| 0 <= k < |q| && q[k] == x;
      }
    } else {
      var k :| 0 <= k < |q| && q[k] >= UsizeMax;
      assert q[k] in q;
    }
  }

  /**
   * The store after `Handle::spawn(task)` on a live core: the task goes into
   * the slot `insert` picks and the id of that slot is queued.  `None` where
   * that slot has no auxiliary id, so that the `debug_assert` in
   * `SpawnId::aux` fails.
   */
  function SpawnSpec<A>(st: Store<A>, task: A): (r: Option<Store<A>>)
    ensures r.None? <==> VacantIndex(st.slots) >= UsizeMax - 1
    ensures r.Some? ==> |st.slots| <= |r.value.slots| <= |st.slots| + 1
    ensures r.Some? && NoDup(st.queue) ==> NoDup(r.value.queue)
    ensures r.Some? && InRange(st.queue) ==> InRange(r.value.queue)
  {
    var aux := VacantIndex(st.slots);
    if aux >= UsizeMax - 1 then None
    else Some(Store(Inserted(st.slots, Some(task)), PushedBack(st.queue, Aux(aux).ToQueueIndex())))
  }

  /** One effect of a poll of the task with queue index `self`; `None` when a spawn runs out of ids. */
  function EffectSpec<A>(st: Store<A>, self: nat, e: Effect<A>): (r: Option<Store<A>>)
    ensures r.None? <==> e.Spawn? && VacantIndex(st.slots) >= UsizeMax - 1
    ensures r.Some? ==> |st.slots| <= |r.value.slots| <= |st.slots| + 1
    ensures r.Some? ==> forall j :: 0 <= j < |st.slots| && st.slots[j].Occupied? ==> r.value.slots[j] == st.slots[j]
    ensures r.Some? && NoDup(st.queue) ==> NoDup(r.value.queue)
    ensures r.Some? && self < UsizeMax && InRange(st.queue) ==> InRange(r.value.queue)
  {
    match e
    case WakeSelf => Some(Store(st.slots, PushedBack(st.queue, self)))
    case Spawn(t) => SpawnSpec(st, t)
  }

  /**
   * The store after the effects of one poll of the task with queue index
   * `self`, in order, or `None` once a spawn runs out of ids.  Spawns only
   * ever fill vacant slots or new ones, so every occupied slot (the one whose
   * task is being polled included) keeps what it holds, and the queue stays
   * duplicate-free and in range.  Only a spawn can run out of ids.
   */
  function EffectsSpec<A>(st: Store<A>, self: nat, effects: seq<Effect<A>>): (r: Option<Store<A>>)
    ensures r.Some? ==> |st.slots| <= |r.value.slots| <= |st.slots| + |effects|
    ensures r.Some? ==> forall j :: 0 <= j < |st.slots| && st.slots[j].Occupied? ==> r.value.slots[j] == st.slots[j]
    ensures r.Some? && NoDup(st.queue) ==> NoDup(r.value.queue)
    ensures r.Some? && self < UsizeMax && InRange(st.queue) ==> InRange(r.value.queue)
    ensures r.None? ==> exists k :: 0 <= k < |effects| && effects[k].Spawn?
    decreases |effects|
  {
    if effects == [] then Some(st)
    else
      var first := EffectSpec(st, self, effects[0]);
      if first.None? then None
      else
        var r := EffectsSpec(first.value, self, effects[1..]);
        assert r.None? ==> exists k :: 0 <= k < |effects[1..]| && effects[1..][k].Spawn?;
        r
  }

  /**
   * The store after the run loop pops the auxiliary id of slot `aux`
   * (`st.queue` no longer holds it): an empty slot is removed; otherwise the
   * slot is emptied while its task is polled, the poll's effects happen, and
   * then the slot is freed (and its id dequeued) if the task is done, or gets
   * the task back if not.  `None` when a spawn of the poll runs out of ids.
   */
  function AuxStepSpec<A>(st: Store<A>, aux: nat, pollAux: A -> AuxPolled<A>): (r: Option<Store<A>>)
    ensures r.Some? ==> |st.slots| <= |r.value.slots|
    ensures r.Some? && aux < UsizeMax - 1 && InRange(st.queue) ==> InRange(r.value.queue)
  {
    var slot := Get(st.slots, aux);
    if slot.Some? && slot.value.Some? then
      var p := pollAux(slot.value.value);
      var mid := EffectsSpec(Store(st.slots[aux := Occupied(None)], st.queue), aux + 1, p.effects);
      if mid.None? then None
      else if p.status.Ready? then
        InRangeMembers(mid.value.queue);
        InRangeMembers(Removed(mid.value.queue, aux + 1));
        Some(Store(Freed(mid.value.slots, aux), Removed(mid.value.queue, aux + 1)))
      else Some(Store(mid.value.slots[aux := Occupied(Some(p.next))], mid.value.queue))
    else Some(Store(Freed(st.slots, aux), st.queue))
  }

  /**
   * The store after the run loop pops the main id and polls the main task:
   * the poll's effects happen, and the main id is dequeued if it is ready.
   * `None` when a spawn of the poll runs out of ids.
   */
  function MainStepSpec<M, A, T, E>(st: Store<A>, p: MainPolled<M, A, T, E>): (r: Option<Store<A>>)
    ensures r.None? <==> EffectsSpec(st, Main().ToQueueIndex(), p.effects).None?
    ensures r.Some? && InRange(st.queue) ==> InRange(r.value.queue)
  {
    var mid := EffectsSpec(st, Main().ToQueueIndex(), p.effects);
    if mid.None? then None
    else if p.answer.Ok? && p.answer.value.Ready? then
      InRangeMembers(mid.value.queue);
      InRangeMembers(Removed(mid.value.queue, Main().ToQueueIndex()));
      Some(Store(mid.value.slots, Removed(mid.value.queue, Main().ToQueueIndex())))
    else mid
  }

  /**
   * A spawn touches exactly one slot: a slot that was vacant (or a new one at
   * the end) now holds the task, every other slot is as it was, and the new
   * id is queued.
   */
  lemma SpawnTouchesOneSlot<A>(st: Store<A>, task: A)
    requires VacantIndex(st.slots) < UsizeMax - 1
    ensures var aux := VacantIndex(st.slots); var r := SpawnSpec(st, task).value;
      && (aux < |st.slots| ==> st.slots[aux] == Vacant)
      && |r.slots| == (if aux == |st.slots| then |st.slots| + 1 else |st.slots|)
      && r.slots[aux] == Occupied(Some(task))
      && (forall j :: 0 <= j < |st.slots| && j != aux ==> r.slots[j] == st.slots[j])
      && Aux(aux).ToQueueIndex() in r.queue
      && (forall x :: x in r.queue <==> x in st.queue || x == Aux(aux).ToQueueIndex())
  {
  }

  /** When a polled auxiliary task is done, its slot is vacant and its id is not queued. */
  lemma AuxReadyFreesSlot<A>(st: Store<A>, aux: nat, pollAux: A -> AuxPolled<A>, task: A)
    requires aux < UsizeMax - 1 && AuxStepSpec(st, aux, pollAux).Some?
    requires Get(st.slots, aux) == Some(Some(task)) && pollAux(task).status.Ready?
    ensures var r := AuxStepSpec(st, aux, pollAux).value;
      aux < |r.slots| && r.slots[aux] == Vacant && Aux(aux).ToQueueIndex() !in r.queue
  {
  }

  /**
   * When a polled auxiliary task is not ready, its next state goes back into
   * the same slot, whatever the poll spawned meanwhile.
   */
  lemma AuxNotReadyRestores<A>(st: Store<A>, aux: nat, pollAux: A -> AuxPolled<A>, task: A)
    requires AuxStepSpec(st, aux, pollAux).Some?
    requires Get(st.slots, aux) == Some(Some(task)) && pollAux(task).status.NotReady?
    ensures var r := AuxStepSpec(st, aux, pollAux).value;
      aux < |r.slots| && r.slots[aux] == Occupied(Some(pollAux(task).next))
  {
  }

  /** An id whose slot is empty or missing is dropped: the slot is removed and nothing is queued. */
  lemma AuxEmptySlotRemoved<A>(st: Store<A>, aux: nat, pollAux: A -> AuxPolled<A>)
    requires Get(st.slots, aux) == None || Get(st.slots, aux) == Some(None)
    ensures var r := AuxStepSpec(st, aux, pollAux);
      r.Some? && r.value.queue == st.queue && |r.value.slots| == |st.slots| &&
      (aux < |st.slots| ==> r.value.slots[aux] == Vacant)
  {
  }

  /**
   * An auxiliary turn leaves every other occupied slot alone and keeps the
   * queue duplicate-free.
   */
  lemma AuxStepKeepsOthers<A>(st: Store<A>, aux: nat, pollAux: A -> AuxPolled<A>)
    requires AuxStepSpec(st, aux, pollAux).Some?
    ensures var r := AuxStepSpec(st, aux, pollAux).value;
      && (forall j :: 0 <= j < |st.slots| && j != aux && st.slots[j].Occupied? ==> r.slots[j] == st.slots[j])
      && (NoDup(st.queue) ==> NoDup(r.queue))
  {
  }

  /**
   * A main turn dequeues the main id exactly when the main task is ready;
   * otherwise only the poll's effects change the store.
   */
  lemma MainStepDequeues<M, A, T, E>(st: Store<A>, p: MainPolled<M, A, T, E>)
    requires MainStepSpec(st, p).Some?
    ensures var r := MainStepSpec(st, p).value; var mid := EffectsSpec(st, Main().ToQueueIndex(), p.effects).value;
      && r.slots == mid.slots
      && (p.answer.Ok? && p.answer.value.Ready? ==> Main().ToQueueIndex() !in r.queue)
      && (!(p.answer.Ok? && p.answer.value.Ready?) ==> r == mid)
      && (NoDup(st.queue) ==> NoDup(r.queue))
  {
  }

  /** What one turn of the run loop did. */
  datatype Progress<+M, +T, +E> =
    | Spin                      // the queue was empty
    | Continue(main: M)         // a task was polled; `main` is the main task's state now
    | Done(result: Result<T, E>)  // the main task resolved
    | Overflow                  // a spawn ran out of auxiliary ids (a failed `debug_assert`)

  /**
   * The progress a poll of the main task reports: `Ready(x)` finishes with
   * `Ok(x)` (the `return` in `run`), an error finishes with that error (the
   * `?`), and `NotReady` goes on with the main task's next state.
   */
  function MainProgress<M, A, T, E>(p: MainPolled<M, A, T, E>): (r: Progress<M, T, E>)
    ensures p.answer.Ok? && p.answer.value.Ready? <==> r.Done? && r.result.Ok?
    ensures r.Done? && r.result.Ok? ==> r.result.value == p.answer.value.value
    ensures p.answer.Err? <==> r.Done? && r.result.Err?
    ensures r.Done? && r.result.Err? ==> r.result.error == p.answer.error
    ensures p.answer.Ok? && p.answer.value.NotReady? <==> r.Continue?
    ensures r.Continue? ==> r.main == p.next
  {
    if Resolved(p.answer) then Done(Outcome(p.answer)) else Continue(p.next)
  }

  /**
   * The progress a turn reports, which the head of the queue and the main
   * task's poll alone decide: an empty queue spins, the main id reports the
   * main task's poll, an auxiliary id leaves the main task as it was.
   */
  function TurnProgress<M, A, T, E>(queue: seq<nat>, main: M, pollMain: M -> MainPolled<M, A, T, E>): (r: Progress<M, T, E>)
    ensures r.Spin? <==> queue == []
    ensures !r.Overflow?
    ensures r.Done? ==> queue[0] == Main().ToQueueIndex() && Resolved(pollMain(main).answer)
    ensures r.Continue? && queue[0] != Main().ToQueueIndex() ==> r.main == main
  {
    if queue == [] then Spin
    else if queue[0] == Main().ToQueueIndex() then MainProgress(pollMain(main))
    else Continue(main)
  }

  /**
   * One turn of the loop of `run`, from store `st` with the main task in state
   * `main`: pop an id; an empty queue spins, the main id polls the main task,
   * an auxiliary id polls its slot.  `None` when a spawn runs out of ids.
   */
  function Turn<M, A, T, E>(st: Store<A>, main: M, pollMain: M -> MainPolled<M, A, T, E>, pollAux: A -> AuxPolled<A>)
    : (r: Option<(Store<A>, Progress<M, T, E>)>)
    ensures r.Some? && InRange(st.queue) ==> InRange(r.value.0.queue)
    ensures r.Some? ==> r.value.1 == TurnProgress(st.queue, main, pollMain)
  {
    if st.queue == [] then Some((st, Spin))
    else
      var rest := Store(st.slots, st.queue[1..]);
      if st.queue[0] == Main().ToQueueIndex() then
        var next := MainStepSpec(rest, pollMain(main));
        if next.None? then None else Some((next.value, MainProgress(pollMain(main))))
      else
        var next := AuxStepSpec(rest, st.queue[0] - 1, pollAux);
        if next.None? then None else Some((next.value, Continue(main)))
  }

  /** `Turn` with its poll functions fixed, as a function of the store and the main task's state. */
  function TurnOf<M, A, T, E>(pollMain: M -> MainPolled<M, A, T, E>, pollAux: A -> AuxPolled<A>)
    : (Store<A>, M) -> Option<(Store<A>, Progress<M, T, E>)>
  {
    (st, main) => Turn(st, main, pollMain, pollAux)
  }

  /**
   * The executor's turn, as a function, keeps every queued index a valid one
   * and reports the progress `TurnProgress` says.
   */
  lemma TurnOfBehaves<M, A, T, E>(pollMain: M -> MainPolled<M, A, T, E>, pollAux: A -> AuxPolled<A>)
    ensures forall st: Store<A>, main: M :: TurnOf(pollMain, pollAux)(st, main).Some? && InRange(st.queue) ==>
      InRange(TurnOf(pollMain, pollAux)(st, main).value.0.queue)
    ensures forall st: Store<A>, main: M :: TurnOf(pollMain, pollAux)(st, main).Some? ==>
      TurnOf(pollMain, pollAux)(st, main).value.1 == TurnProgress(st.queue, main, pollMain)
  {
  }

  /** How `run` ended: the main task's outcome, or no outcome within the fuel, or an id overflow. */
  datatype RunOutcome<+T, +E> = Finished(result: Result<T, E>) | OutOfFuel | Overflowed

  /**
   * A run: how it ended, the store it ended with (the store before the failed
   * turn, after an overflow), and how many polls of the main task were not
   * ready on the way.
   */
  datatype Ran<A, +T, +E> = Ran(outcome: RunOutcome<T, E>, store: Store<A>, waits: nat)

  /**
   * The loop of `run` from store `st`, taking at most `fuel` turns, each of
   * them `turn` (the executor's is `TurnOf(pollMain, pollAux)`).  A turn that
   * pops the main id and goes on is one more wait.
   */
  function RunSpec<M, A, T, E>(turn: (Store<A>, M) -> Option<(Store<A>, Progress<M, T, E>)>,
                               st: Store<A>, main: M, fuel: nat): Ran<A, T, E>
    decreases fuel
  {
    if fuel == 0 then Ran(OutOfFuel, st, 0)
    else
      match turn(st, main)
      case None => Ran(Overflowed, st, 0)
      case Some((next, p)) =>
        match p
        case Spin => RunSpec(turn, next, main, fuel - 1)
        case Continue(m) =>
          var rest := RunSpec(turn, next, m, fuel - 1);
          if st.queue != [] && st.queue[0] == Main().ToQueueIndex() then rest.(waits := rest.waits + 1) else rest
        case Done(res) => Ran(Finished(res), next, 0)
        case Overflow => Ran(Overflowed, st, 0)
  }

  /** Every index a run leaves queued is a valid queue index, when every index queued at its start was. */
  lemma {:induction false} RunSpecKeepsQueueInRange<M, A, T, E>(turn: (Store<A>, M) -> Option<(Store<A>, Progress<M, T, E>)>,
                                                                st: Store<A>, main: M, fuel: nat)
    requires forall st': Store<A>, main': M :: turn(st', main').Some? && InRange(st'.queue) ==>
      InRange(turn(st', main').value.0.queue)
    requires InRange(st.queue)
    ensures InRange(RunSpec(turn, st, main, fuel).store.queue)
    decreases fuel
  {
    if fuel > 0 && turn(st, main).Some? {
      var next, p := turn(st, main).value.0, turn(st, main).value.1;
      match p
      case Spin => RunSpecKeepsQueueInRange(turn, next, main, fuel - 1);
      case Continue(m) => RunSpecKeepsQueueInRange(turn, next, m, fuel - 1);
      case Done(_) =>
      case Overflow =>
    }
  }

  /**
   * What is left of a run: `goal` is the run that `fuel` more turns from
   * store `st`, with the main task in state `main`, end in, once `waits`
   * waits have already been counted.
   */
  ghost predicate Remains<M, A, T, E>(goal: Ran<A, T, E>, turn: (Store<A>, M) -> Option<(Store<A>, Progress<M, T, E>)>,
                                      st: Store<A>, main: M, fuel: nat, waits: nat)
  {
    var rest := RunSpec(turn, st, main, fuel);
    goal.outcome == rest.outcome && goal.store == rest.store && goal.waits == rest.waits + waits
  }

  /** The main task's state after a turn that goes on. */
  function MainAfter<M, T, E>(main: M, p: Progress<M, T, E>): M
  {
    if p.Continue? then p.main else main
  }

  /** One wait when a turn that goes on popped the main id. */
  function Waited<M, T, E>(queue: seq<nat>, p: Progress<M, T, E>): nat
  {
    if p.Continue? && queue != [] && queue[0] == Main().ToQueueIndex() then 1 else 0
  }

  /**
   * What is left of a run after one turn, with the turn given as `Core.Step`
   * reports it: the rest from the next turn on, or the run's end.
   */
  lemma RemainsAfterTurn<M, A, T, E>(goal: Ran<A, T, E>, turn: (Store<A>, M) -> Option<(Store<A>, Progress<M, T, E>)>,
                                     st: Store<A>, main: M, fuel: nat, waits: nat, next: Store<A>, p: Progress<M, T, E>)
    requires fuel > 0 && Remains(goal, turn, st, main, fuel, waits)
    requires p.Overflow? <==> turn(st, main).None?
    requires !p.Overflow? ==> (next, p) == turn(st, main).value
    ensures p.Spin? || p.Continue? ==>
      Remains(goal, turn, next, MainAfter(main, p), fuel - 1, waits + Waited(st.queue, p))
    ensures p.Done? ==> goal == Ran(Finished(p.result), next, waits)
    ensures p.Overflow? ==> goal.outcome == Overflowed
  {
  }

  /** The store and the main task's state after `k` turns of `turn` from store `st` and state `main`. */
  ghost function Reached<M, A, T, E>(turn: (Store<A>, M) -> Option<(Store<A>, Progress<M, T, E>)>,
                                     st: Store<A>, main: M, k: nat): (Store<A>, M)
    decreases k
  {
    if k == 0 then (st, main)
    else
      var s := Reached(turn, st, main, k - 1);
      match turn(s.0, s.1)
      case None => s
      case Some((next, p)) => (next, MainAfter(s.1, p))
  }

  /** `turn` takes the same turn as `Turn` at the state reached after `k` turns. */
  ghost predicate AgreesAt<M, A, T, E>(turn: (Store<A>, M) -> Option<(Store<A>, Progress<M, T, E>)>,
                                       pollMain: M -> MainPolled<M, A, T, E>, pollAux: A -> AuxPolled<A>,
                                       st: Store<A>, main: M, k: nat)
  {
    var s := Reached(turn, st, main, k);
    turn(s.0, s.1) == Turn(s.0, s.1, pollMain, pollAux)
  }

  /** `turn` takes the same turns as `Turn` all along the run from store `st` and state `main`. */
  ghost predicate Agrees<M, A, T, E>(turn: (Store<A>, M) -> Option<(Store<A>, Progress<M, T, E>)>,
                                     pollMain: M -> MainPolled<M, A, T, E>, pollAux: A -> AuxPolled<A>,
                                     st: Store<A>, main: M)
  {
    forall k: nat :: AgreesAt(turn, pollMain, pollAux, st, main, k)
  }

  /** The executor's turn agrees with `Turn` along every run. */
  lemma TurnOfAgrees<M, A, T, E>(pollMain: M -> MainPolled<M, A, T, E>, pollAux: A -> AuxPolled<A>, st: Store<A>, main: M)
    ensures Agrees(TurnOf(pollMain, pollAux), pollMain, pollAux, st, main)
  {
  }

  /** The state of the main task after `k` polls. */
  function MainAt<M, A, T, E>(pollMain: M -> MainPolled<M, A, T, E>, main: M, k: nat): M
    decreases k
  {
    if k == 0 then main else MainAt(pollMain, pollMain(main).next, k - 1)
  }

  /**
   * The main task, polled from `main` on, is not ready at its first `k`
   * polls and resolves with `result` at the next one.
   */
  ghost predicate ResolvesAfter<M, A, T, E>(pollMain: M -> MainPolled<M, A, T, E>, main: M, k: nat, result: Result<T, E>)
  {
    && Resolved(pollMain(MainAt(pollMain, main, k)).answer)
    && result == Outcome(pollMain(MainAt(pollMain, main, k)).answer)
    && forall j :: 0 <= j < k ==> !Resolved(pollMain(MainAt(pollMain, main, j)).answer)
  }

  /** A poll that is not ready puts one more wait in front of the resolution of the next state. */
  lemma ResolvesAfterOneMore<M, A, T, E>(pollMain: M -> MainPolled<M, A, T, E>, main: M, next: M, k: nat, result: Result<T, E>)
    requires MainProgress(pollMain(main)) == Continue(next)
    requires ResolvesAfter(pollMain, next, k, result)
    ensures ResolvesAfter(pollMain, main, k + 1, result)
  {
    assert !Resolved(pollMain(main).answer) && next == pollMain(main).next;
    forall j: nat | j <= k
      ensures MainAt(pollMain, main, j + 1) == MainAt(pollMain, pollMain(main).next, j)
    {
    }
  }

  /**
   * `run` returns the answer of the main task's first resolving poll: a run
   * that finishes has polled the main task `waits` times without it
   * resolving, and the next poll resolved with the result.
   */
  lemma {:induction false} RunReturnsFirstResolution<M, A, T, E>(turn: (Store<A>, M) -> Option<(Store<A>, Progress<M, T, E>)>,
                                                                 pollMain: M -> MainPolled<M, A, T, E>,
                                                                 st: Store<A>, main: M, fuel: nat)
    requires forall st': Store<A>, main': M :: turn(st', main').Some? ==>
      turn(st', main').value.1 == TurnProgress(st'.queue, main', pollMain)
    ensures var ran := RunSpec(turn, st, main, fuel);
      ran.outcome.Finished? ==> ResolvesAfter(pollMain, main, ran.waits, ran.outcome.result)
    decreases fuel
  {
    if fuel == 0 || turn(st, main).None? {
      return;
    }
    var next, p := turn(st, main).value.0, turn(st, main).value.1;
    assert p == TurnProgress(st.queue, main, pollMain);
    match p
    case Spin =>
      RunReturnsFirstResolution(turn, pollMain, next, main, fuel - 1);
    case Continue(m) =>
      RunReturnsFirstResolution(turn, pollMain, next, m, fuel - 1);
      var rest := RunSpec(turn, next, m, fuel - 1);
      if st.queue[0] == Main().ToQueueIndex() && rest.outcome.Finished? {
        ResolvesAfterOneMore(pollMain, main, m, rest.waits, rest.outcome.result);
      }
    case Done(_) =>
      assert MainAt(pollMain, main, 0) == main;
    case Overflow =>
  }

  /**
   * The executor.  `alive` stands for the `Rc` that owns the inner state:
   * handles hold only a weak reference and find the core gone once it is false.
   */
  class Core<A> {
    var spawns: seq<Entry<Option<Spawned<A>>>>
    const queue: IndexQueue
    var alive: bool

    /** A ticket belongs in slot `i`: it wakes id `i + 1` into this core's queue. */
    predicate TicketFits(t: Ticket, i: nat)
    {
      t.id == SpawnId(i + 1) && t.queue == queue
    }

    ghost predicate Valid()
      reads this, queue
    {
      && queue.Valid()
      && InRange(queue.items)
      && forall i :: 0 <= i < |spawns| && spawns[i].Occupied? && spawns[i].value.Some? ==>
           TicketFits(spawns[i].value.value.ticket, i)
    }

    ghost function Abs(): Store<A>
      reads this, queue
    {
      Store(Tasks(spawns), queue.items)
    }

    /** `Core::default()`: no tasks, an empty queue. */
    constructor ()
      ensures Valid() && alive && fresh(queue)
      ensures spawns == [] && queue.items == []
    {
      spawns := [];
      queue := new IndexQueue();
      alive := true;
    }

    /** `Core::handle`: a handle that refers to this core without owning it. */
    method Handle() returns (h: Handle<A>)
      ensures fresh(h) && h.core == this
    {
      h := new Handle(this);
    }

    /** Dropping the core: its tasks go with it, and handles can no longer reach it. */
    method Drop()
      modifies this
      ensures !alive && spawns == []
    {
      alive := false;
      spawns := [];
    }

    /** `Inner::new_ticket`: a fresh ticket for `id`, already unparked once. */
    method NewTicket(id: SpawnId) returns (t: Ticket)
      requires Valid() && id.ToQueueIndex() < UsizeMax
      modifies queue
      ensures Valid() && fresh(t) && t.id == id && t.queue == queue
      ensures queue.items == PushedBack(old(queue.items), id.ToQueueIndex())
    {
      t := new Ticket(id, queue);
      t.Unpark();
    }

    /** The body of `Handle::spawn` once the core is known to be alive. */
    method SpawnTask(task: A)
      requires Valid() && alive && VacantIndex(spawns) < UsizeMax - 1
      modifies this, queue
      ensures Valid() && alive
      ensures SpawnSpec(old(Abs()), task) == Some(Abs())
      ensures |old(spawns)| <= |spawns|
      ensures forall j :: 0 <= j < |old(spawns)| && old(spawns)[j].Occupied? ==> spawns[j] == old(spawns)[j]
    {
      ghost var before := Abs();
      var aux := VacantIndex(spawns);
      VacantIndexOfTasks(spawns);
      spawns := Inserted(spawns, None);
      var ticket := NewTicket(Aux(aux));
      spawns := spawns[aux := Occupied(Some(Spawned(task, ticket)))];
      assert Tasks(spawns) == Inserted(before.slots, Some(task));
    }

    /**
     * The effects of one poll of the task owning `ticket`, in order.  A spawn
     * into a slot without an auxiliary id stops here with `overflow`, where
     * the source's `debug_assert` in `SpawnId::aux` fails.
     */
    method ApplyEffects(effects: seq<Effect<A>>, ticket: Ticket) returns (overflow: bool)
      requires Valid() && alive && ticket.queue == queue && ticket.id.ToQueueIndex() < UsizeMax
      modifies this, queue
      ensures Valid() && alive
      ensures overflow <==> EffectsSpec(old(Abs()), ticket.id.ToQueueIndex(), effects).None?
      ensures !overflow ==> Abs() == EffectsSpec(old(Abs()), ticket.id.ToQueueIndex(), effects).value
      ensures |old(spawns)| <= |spawns|
      ensures forall j :: 0 <= j < |old(spawns)| && old(spawns)[j].Occupied? ==> spawns[j] == old(spawns)[j]
    {
      ghost var self := ticket.id.ToQueueIndex();
      ghost var goal := EffectsSpec(Abs(), self, effects);
      var i := 0;
      while i < |effects|
        invariant 0 <= i <= |effects|
        invariant Valid() && alive
        invariant |old(spawns)| <= |spawns|
        invariant forall j :: 0 <= j < |old(spawns)| && old(spawns)[j].Occupied? ==> spawns[j] == old(spawns)[j]
        invariant EffectsSpec(Abs(), self, effects[i..]) == goal
      {
        assert effects[i..][1..] == effects[i + 1..];
        match effects[i] {
          case WakeSelf =>
            ticket.Unpark();
          case Spawn(t) =>
            if VacantIndex(spawns) >= UsizeMax - 1 {
              VacantIndexOfTasks(spawns);
              return true;
            }
            SpawnTask(t);
        }
        i := i + 1;
      }
      overflow := false;
    }

    /**
     * The auxiliary branch of the run loop for slot `aux`: take the task out of
     * its slot, poll it, then free the slot and deactivate the ticket if the
     * task is done, or put the same task and ticket back if it is not.  An
     * empty or missing slot is removed.
     */
    method PollAux(aux: nat, pollAux: A -> AuxPolled<A>) returns (overflow: bool)
      requires Valid() && alive && aux < UsizeMax - 1
      modifies this, queue
      ensures Valid() && alive
      ensures overflow <==> AuxStepSpec(old(Abs()), aux, pollAux).None?
      ensures !overflow ==> Abs() == AuxStepSpec(old(Abs()), aux, pollAux).value
      ensures (!overflow && aux < |old(spawns)| && old(spawns)[aux].Occupied? && old(spawns)[aux].value.Some? &&
               pollAux(old(spawns)[aux].value.value.task).status.NotReady?) ==>
        aux < |spawns| && spawns[aux] ==
          Occupied(Some(Spawned(pollAux(old(spawns)[aux].value.value.task).next, old(spawns)[aux].value.value.ticket)))
    {
      var slot := Get(spawns, aux);
      if slot.Some? && slot.value.Some? {
        var s := slot.value.value;
        spawns := spawns[aux := Occupied(None)];
        assert Tasks(spawns) == old(Abs()).slots[aux := Occupied(None)];
        overflow := PollTaken(aux, s, pollAux);
      } else {
        overflow := false;
        spawns := Freed(spawns, aux);
        assert Tasks(spawns) == Freed(old(Abs()).slots, aux);
      }
    }

    /**
     * The rest of the auxiliary branch once task `s` has been taken out of
     * slot `aux`, leaving it occupied but empty.
     */
    method PollTaken(aux: nat, s: Spawned<A>, pollAux: A -> AuxPolled<A>) returns (overflow: bool)
      requires Valid() && alive && aux < UsizeMax - 1 && aux < |spawns| && spawns[aux] == Occupied(None)
      requires TicketFits(s.ticket, aux)
      modifies this, queue
      ensures Valid() && alive
      ensures var mid := EffectsSpec(old(Abs()), aux + 1, pollAux(s.task).effects);
        && (overflow <==> mid.None?)
        && (!overflow ==>
              Abs() == if pollAux(s.task).status.Ready? then Store(Freed(mid.value.slots, aux), Removed(mid.value.queue, aux + 1))
                       else Store(mid.value.slots[aux := Occupied(Some(pollAux(s.task).next))], mid.value.queue))
      ensures !overflow && pollAux(s.task).status.NotReady? ==>
        aux < |spawns| && spawns[aux] == Occupied(Some(Spawned(pollAux(s.task).next, s.ticket)))
    {
      var polled := pollAux(s.task);
      overflow := ApplyEffects(polled.effects, s.ticket);
      if overflow {
        return;
      }
      ghost var mid := Tasks(spawns);
      if polled.status.Ready? {
        InRangeMembers(queue.items);
        s.ticket.Deactivate();
        InRangeMembers(queue.items);
        spawns := Freed(spawns, aux);
        assert Tasks(spawns) == Freed(mid, aux);
      } else {
        spawns := spawns[aux := Occupied(Some(Spawned(polled.next, s.ticket)))];
        assert Tasks(spawns) == mid[aux := Occupied(Some(polled.next))];
      }
    }

    /**
     * One turn of the loop in `Core::run`: pop an id; on the main id poll the
     * main task (deactivating its ticket if it is ready); on an auxiliary id
     * poll that slot's task.  An empty queue makes the turn spin.
     */
    method Step<M, T, E>(main: M, mainTicket: Ticket, pollMain: M -> MainPolled<M, A, T, E>, pollAux: A -> AuxPolled<A>)
      returns (p: Progress<M, T, E>)
      requires Valid() && alive && mainTicket.id == Main() && mainTicket.queue == queue
      modifies this, queue
      ensures Valid() && alive
      ensures p.Overflow? <==> Turn(old(Abs()), main, pollMain, pollAux).None?
      ensures !p.Overflow? ==> (Abs(), p) == Turn(old(Abs()), main, pollMain, pollAux).value
      ensures p.Done? && p.result.Ok? ==> Main().ToQueueIndex() !in queue.items
    {
      var popped := queue.PopFront();
      if popped.None? {
        return Spin;
      }
      var index := popped.value;
      match FromQueueIndex(index).ToAux() {
        case None =>
          var polled := pollMain(main);
          var overflow := ApplyEffects(polled.effects, mainTicket);
          if overflow {
            return Overflow;
          }
          p := MainProgress(polled);
          if polled.answer.Ok? && polled.answer.value.Ready? {
            InRangeMembers(queue.items);
            mainTicket.Deactivate();
            InRangeMembers(queue.items);
          }
        case Some(aux) =>
          var overflow := PollAux(aux, pollAux);
          p := if overflow then Overflow else Continue(main);
      }
    }

    /**
     * `Step`, seen through `turn`: the turn taken from the state reached after
     * `k` turns of a run along which `turn` agrees with `Turn`.
     */
    method StepAlong<M, T, E>(main: M, mainTicket: Ticket, pollMain: M -> MainPolled<M, A, T, E>,
                              pollAux: A -> AuxPolled<A>, ghost turn: (Store<A>, M) -> Option<(Store<A>, Progress<M, T, E>)>,
                              ghost st0: Store<A>, ghost main0: M, ghost k: nat)
      returns (p: Progress<M, T, E>)
      requires Valid() && alive && mainTicket.id == Main() && mainTicket.queue == queue
      requires Agrees(turn, pollMain, pollAux, st0, main0) && Reached(turn, st0, main0, k) == (Abs(), main)
      modifies this, queue
      ensures Valid() && alive
      ensures p.Overflow? <==> turn(old(Abs()), main).None?
      ensures !p.Overflow? ==> (Abs(), p) == turn(old(Abs()), main).value
      ensures p.Done? && p.result.Ok? ==> Main().ToQueueIndex() !in queue.items
    {
      assert AgreesAt(turn, pollMain, pollAux, st0, main0, k);
      p := Step(main, mainTicket, pollMain, pollAux);
    }

    /**
     * The loop of `Core::run`, from the current store with the main task in
     * state `main`: at most `fuel` turns, as `RunSpec` says of `turn`, which
     * takes the turns `Turn` takes with these poll functions.  `waits` counts
     * the polls of the main task that were not ready.
     */
    method RunLoop<M, T, E>(main: M, mainTicket: Ticket, pollMain: M -> MainPolled<M, A, T, E>,
                            pollAux: A -> AuxPolled<A>, ghost turn: (Store<A>, M) -> Option<(Store<A>, Progress<M, T, E>)>,
                            fuel: nat)
      returns (r: RunOutcome<T, E>, ghost waits: nat)
      requires Valid() && alive && mainTicket.id == Main() && mainTicket.queue == queue
      requires Agrees(turn, pollMain, pollAux, Abs(), main)
      modifies this, queue
      ensures Valid() && alive
      ensures var ran := RunSpec(turn, old(Abs()), main, fuel);
        r == ran.outcome && waits == ran.waits && (!r.Overflowed? ==> Abs() == ran.store)
      ensures r.Finished? && r.result.Ok? ==> Main().ToQueueIndex() !in queue.items
    {
      ghost var st0 := Abs();
      ghost var goal := RunSpec(turn, st0, main, fuel);
      var current := main;
      waits := 0;
      ghost var st := st0;
      var n: nat := fuel;
      while n > 0
        invariant n <= fuel
        invariant Valid() && alive && st == Abs()
        invariant mainTicket.id == Main() && mainTicket.queue == queue
        invariant Reached(turn, st0, main, fuel - n) == (st, current)
        invariant Remains(goal, turn, st, current, n, waits)
      {
        var p := StepAlong(current, mainTicket, pollMain, pollAux, turn, st0, main, fuel - n);
        RemainsAfterTurn(goal, turn, st, current, n, waits, Abs(), p);
        if p.Done? {
          return Finished(p.result), waits;
        } else if p.Overflow? {
          return Overflowed, waits;
        }
        waits := waits + Waited(st.queue, p);
        current := MainAfter(current, p);
        st := Abs();
        n := n - 1;
      }
      r := OutOfFuel;
    }

    /**
     * `Core::run`: queue the main task through a fresh ticket, then turn the
     * loop until the main task resolves, as `RunSpec` says from the store with
     * the main id queued.  The source loops for ever while the queue is empty;
     * here at most `fuel` turns are taken.  A run that finishes returns the
     * main task's first resolving answer.
     */
    method Run<M, T, E>(main: M, pollMain: M -> MainPolled<M, A, T, E>, pollAux: A -> AuxPolled<A>, fuel: nat)
      returns (r: RunOutcome<T, E>, ghost waits: nat)
      requires Valid() && alive
      modifies this, queue
      ensures Valid() && alive
      ensures var ran := RunSpec(TurnOf(pollMain, pollAux),
                                 Store(old(Abs()).slots, PushedBack(old(Abs()).queue, Main().ToQueueIndex())), main, fuel);
        r == ran.outcome && waits == ran.waits && (!r.Overflowed? ==> Abs() == ran.store)
      ensures r.Finished? ==> ResolvesAfter(pollMain, main, waits, r.result)
      ensures r.Finished? && r.result.Ok? ==> Main().ToQueueIndex() !in queue.items
    {
      var mainTicket := NewTicket(Main());
      TurnOfBehaves(pollMain, pollAux);
      TurnOfAgrees(pollMain, pollAux, Abs(), main);
      RunReturnsFirstResolution(TurnOf(pollMain, pollAux), pollMain, Abs(), main, fuel);
      r, waits := RunLoop(main, mainTicket, pollMain, pollAux, TurnOf(pollMain, pollAux), fuel);
    }
  }

  /** The arena and the tasks it holds have the same vacant slots. */
  lemma VacantIndexOfTasks<A>(spawns: seq<Entry<Option<Spawned<A>>>>)
    ensures VacantIndex(Tasks(spawns)) == VacantIndex(spawns)
  {
  }

  /** A cloneable, non-owning reference to a `Core`. */
  class Handle<A> {
    const core: Core<A>

    constructor (core: Core<A>)
      ensures this.core == core
    {
      this.core := core;
    }

    /**
     * `Handle::spawn`: nothing at all when the core is gone; otherwise the task
     * goes into a vacant slot and its fresh ticket queues its id.
     */
    method Spawn(task: A)
      requires core.Valid()
      requires core.alive ==> VacantIndex(core.spawns) < UsizeMax - 1
      modifies core, core.queue
      ensures core.Valid() && core.alive == old(core.alive)
      ensures !old(core.alive) ==> unchanged(core, core.queue)
      ensures old(core.alive) ==> SpawnSpec(old(core.Abs()), task) == Some(core.Abs())
    {
      if !core.alive {
        return;
      }
      core.SpawnTask(task);
    }
  }

  /** A main task that finishes with 7 at its first poll. */
  function FinishesWithSeven(m: int): MainPolled<int, int, int, int>
  {
    MainPolled(Ok(Ready(7)), m, [])
  }

  /** A background task that is never ready and counts its polls. */
  function NeverReady(a: int): AuxPolled<int>
  {
    AuxPolled(NotReady, a + 1, [])
  }

  /** The two turns of `OutlivedBackgroundTask` on the store. */
  lemma OutlivedTurns()
    ensures Turn(Store([Occupied(Some(0))], [1, 0]), 0, FinishesWithSeven, NeverReady)
      == Some((Store([Occupied(Some(1))], [0]), Continue(0)))
    ensures Turn(Store([Occupied(Some(1))], [0]), 0, FinishesWithSeven, NeverReady)
      == Some((Store([Occupied(Some(1))], []), Done(Ok(7))))
  {
    assert [1, 0][1..] == [0] && [0][1..] == [];
    assert EffectsSpec(Store([Occupied(None)], [0]), 1, NeverReady(0).effects) == Some(Store([Occupied(None)], [0]));
    assert EffectsSpec(Store([Occupied(Some(1))], []), 0, FinishesWithSeven(0).effects) == Some(Store([Occupied(Some(1))], []));
    assert Get([Occupied(Some(0))], 0) == Some(Some(0));
    assert [Occupied(Some(0))][0 := Occupied(None)] == [Occupied(None)];
    assert [Occupied(None)][0 := Occupied(Some(1))] == [Occupied(Some(1))];
    assert AuxStepSpec(Store([Occupied(Some(0))], [0]), 0, NeverReady) == Some(Store([Occupied(Some(1))], [0]));
    assert MainStepSpec(Store([Occupied(Some(1))], []), FinishesWithSeven(0)) == Some(Store([Occupied(Some(1))], []));
    assert MainProgress(FinishesWithSeven(0)) == Done(Ok(7));
  }

  /**
   * A background task that never finishes does not hold up `run`: spawn one,
   * start a run (queueing the main id behind it), and the first turn polls the
   * background task and puts it back, the second polls the main task, which
   * finishes with 7 while the background task is still in its slot.
   */
  method OutlivedBackgroundTask() returns (first: Progress<int, int, int>, second: Progress<int, int, int>,
                                           pending: Entry<Option<int>>)
    ensures first == Continue(0)
    ensures second == Done(Ok(7))
    ensures pending == Occupied(Some(1))
  {
    var core := new Core<int>();
    var handle := core.Handle();
    handle.Spawn(0);
    assert core.queue.items == [1];
    var mainTicket := core.NewTicket(Main());
    assert core.Abs() == Store([Occupied(Some(0))], [1, 0]);
    OutlivedTurns();
    first := core.Step(0, mainTicket, FinishesWithSeven, NeverReady);
    second := core.Step(0, mainTicket, FinishesWithSeven, NeverReady);
    pending := TaskOf(core.spawns[0]);
  }

  /**
   * Deactivating a ticket takes its id out of the queue but keeps the ticket's
   * queue reference, so a later `unpark` through the same ticket queues the id
   * again.
   */
  method DeactivateThenUnpark() returns (afterDeactivate: seq<nat>, afterUnpark: seq<nat>)
    ensures afterDeactivate == []
    ensures afterUnpark == [Aux(0).ToQueueIndex()]
  {
    var queue := new IndexQueue();
    var ticket := new Ticket(Aux(0), queue);
    ticket.Unpark();
    ticket.Deactivate();
    afterDeactivate := queue.items;
    ticket.Unpark();
    afterUnpark := queue.items;
  }
}
