/**
 * Spawning a future in the background and collecting its result.  `SpawnFuture`
 * spawns a `SpawnedFuture` wrapper through a handle on its first poll; the
 * wrapper forwards the inner future's outcome through a drop-off channel and
 * wakes the task that is waiting for it.
 */
module SpawnFutures {
  import opened Prelude
  import opened Futures
  import opened SpawnIds
  import opened Arenas
  import opened Executor
  import opened DropOff

  /**
   * The wrapper task.  `future` is polled through a function that gives its
   * answer and its next state; `task` is the waiting task it wakes.
   */
  class SpawnedFuture<F, T, E> {
    var future: F
    var sender: Option<Sender<Result<T, E>>>
    const task: Waker

    constructor (future: F, sender: Sender<Result<T, E>>, task: Waker)
      ensures this.future == future && this.sender == Some(sender) && this.task == task
    {
      this.future := future;
      this.sender := Some(sender);
      this.task := task;
    }

    /**
     * `SpawnedFuture::poll`.  While the inner future is not ready nothing is
     * sent.  Once it resolves, its outcome is sent (a failed send is
     * ignored), the sender is used up, the waiting task is woken, and the
     * wrapper is ready; its error type is empty, so it never fails.  Polling
     * again after that with a resolving future would find no sender (the
     * source panics), which the precondition rules out.
     */
    method Poll(pollInner: F -> Polled<F, T, E>) returns (r: Async<()>)
      requires sender.Some? ==> sender.value.chan.Valid() && sender.value.chan.senderAlive
      requires Resolved(pollInner(future).answer) ==> sender.Some?
      modifies this, task, if sender.Some? then {sender.value.chan} else {}
      ensures future == pollInner(old(future)).next
      ensures !Resolved(pollInner(old(future)).answer) ==>
        && r == NotReady && sender == old(sender) && task.unparks == old(task.unparks)
        && (sender.Some? ==> unchanged(sender.value.chan))
      ensures Resolved(pollInner(old(future)).answer) ==>
        && r == Ready(()) && sender == None && task.unparks == old(task.unparks) + 1
        && var chan := old(sender).value.chan;
           && chan.Valid() && !chan.senderAlive && chan.receiverAlive == old(chan.receiverAlive)
           && (old(chan.receiverAlive) ==> chan.cell == Some(Outcome(pollInner(old(future)).answer)))
           && (!old(chan.receiverAlive) ==> chan.cell == old(chan.cell))
    {
      var polled := pollInner(future);
      future := polled.next;
      if !Resolved(polled.answer) {
        return NotReady;
      }
      var result := Outcome(polled.answer);
      var s := sender.value;
      sender := None;
      var _ := s.Send(result);
      task.Unpark();
      r := Ready(());
    }
  }

  /**
   * The adapter's state.  `Invalid` is what `mem::replace` leaves while a
   * poll runs, and what remains once the result has been handed out.
   */
  datatype State<F, T, E> =
    | Starting(handle: Handle<SpawnedFuture<F, T, E>>, future: F)
    | Waiting(receiver: Receiver<Result<T, E>>)
    | Invalid

  class SpawnFuture<F, T, E> {
    var state: State<F, T, E>

    /** `SpawnFuture::new`. */
    constructor (handle: Handle<SpawnedFuture<F, T, E>>, future: F)
      ensures state == Starting(handle, future)
    {
      state := Starting(handle, future);
    }

    /** The objects besides this one that a poll in the current state may change. */
    ghost function Footprint(): set<object>
      reads this
    {
      match state
      case Starting(h, _) => {h.core, h.core.queue}
      case Waiting(rc) => {rc.chan}
      case Invalid => {}
    }

    /**
     * A poll does not panic: the state is not `Invalid`, and while waiting
     * either the result is there or its sender still exists.  A spawn must
     * also have an auxiliary id left.
     */
    ghost predicate CanPoll()
      reads this, Footprint()
    {
      match state
      case Starting(h, _) => h.core.Valid() && (h.core.alive ==> VacantIndex(h.core.spawns) < UsizeMax - 1)
      case Waiting(rc) => rc.chan.Valid() && rc.chan.receiverAlive && (rc.chan.cell.Some? || rc.chan.senderAlive)
      case Invalid => false
    }

    /**
     * `SpawnFuture::poll`.  Starting: spawn one wrapper holding a fresh
     * sender and the current task, keep the matching receiver, not ready.
     * Waiting: a delivered `Ok(item)` is ready with `item`, a delivered
     * `Err(e)` is the error `e`, and nothing delivered keeps the same
     * receiver and is not ready.  A poll that is not ready always leaves the
     * adapter waiting, never `Invalid`.
     */
    method Poll(current: Waker) returns (r: Result<Async<T>, E>)
      requires CanPoll()
      modifies this, Footprint()
      ensures r.Ok? && r.value.NotReady? ==> state.Waiting?
      ensures old(state).Starting? ==>
        && r == Ok(NotReady) && state.Waiting?
        && var chan := state.receiver.chan;
           && fresh(chan) && chan.Valid() && chan.cell == None && chan.receiverAlive
           && chan.senderAlive == old(state.handle.core.alive)
      ensures old(state).Starting? && !old(state.handle.core.alive) ==>
        unchanged(old(state.handle.core), old(state.handle.core.queue))
      ensures old(state).Starting? && old(state.handle.core.alive) ==>
        var core := old(state.handle.core);
        var aux := VacantIndex(old(core.spawns));
        && aux < |core.spawns| && core.spawns[aux].Occupied? && core.spawns[aux].value.Some?
        && var sf := core.spawns[aux].value.value.task;
           && fresh(sf) && sf.future == old(state.future) && sf.task == current
           && sf.sender == Some(Sender(state.receiver.chan))
           && core.Valid() && SpawnSpec(old(core.Abs()), sf) == Some(core.Abs())
      ensures old(state).Waiting? ==>
        var chan := old(state.receiver.chan);
        && (old(chan.cell).Some? && old(chan.cell).value.Ok? ==> r == Ok(Ready(old(chan.cell).value.value)) && state == Invalid)
        && (old(chan.cell).Some? && old(chan.cell).value.Err? ==> r == Err(old(chan.cell).value.error) && state == Invalid)
        && (old(chan.cell).None? ==> r == Ok(NotReady) && state == old(state) && chan.Valid() && chan.receiverAlive)
    {
      var previous := state;
      state := Invalid;
      match previous {
        case Starting(handle, future) =>
          var sender, receiver := New<Result<T, E>>();
          var spawned := new SpawnedFuture(future, sender, current);
          handle.Spawn(spawned);
          if !handle.core.alive {
            // a dead core drops the wrapper at once, and with it the sender
            sender.Drop();
          }
          state := Waiting(receiver);
          r := Ok(NotReady);
        case Waiting(receiver) =>
          var taken := receiver.Take();
          match taken {
            case Ok(Ok(item)) =>
              r := Ok(Ready(item));
            case Ok(Err(e)) =>
              r := Err(e);
            case Err(Some(again)) =>
              state := Waiting(again);
              r := Ok(NotReady);
          }
      }
    }
  }

  /**
   * The adapter end to end: the first poll spawns the wrapper into slot 0 and
   * is not ready; the wrapper, polled there, forwards the inner future's 5;
   * the next poll of the adapter is ready with 5.
   */
  method CollectRoundTrip() returns (first: Result<Async<int>, int>, forwarded: Async<()>,
                                     second: Result<Async<int>, int>)
    ensures first == Ok(NotReady)
    ensures forwarded == Ready(())
    ensures second == Ok(Ready(5))
  {
    var core := new Core<SpawnedFuture<int, int, int>>();
    var handle := core.Handle();
    var adapter := new SpawnFuture(handle, 0);
    var current := new Waker();
    first := adapter.Poll(current);
    var wrapper := core.spawns[0].value.value.task;
    forwarded := wrapper.Poll((f: int) => Polled(Ok(Ready(5)), f));
    second := adapter.Poll(current);
  }
}
