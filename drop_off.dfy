/**
 * A single-threaded one-shot channel.  The receiver owns the cell (an `Rc`),
 * the sender only refers to it (a `Weak`), so the sender can tell whether the
 * receiver still exists and the receiver can tell whether the sender does.
 */
module DropOff {
  import opened Prelude

  /**
   * The shared `RefCell<Option<T>>`.  `receiverAlive` says the receiver's
   * strong reference is held, `senderAlive` that the sender's weak one is;
   * `writes` counts the values ever stored into the cell.
   */
  class Channel<T> {
    var cell: Option<T>
    var senderAlive: bool
    var receiverAlive: bool
    ghost var writes: nat

    /**
     * At most one value is ever written, never while the sender can still
     * write, and a value in the cell is that one write.
     */
    ghost predicate Valid()
      reads this
    {
      && writes <= 1
      && (senderAlive ==> writes == 0)
      && (cell.Some? ==> writes == 1)
    }

    constructor ()
      ensures Valid() && cell == None && senderAlive && receiverAlive && writes == 0
    {
      cell := None;
      senderAlive := true;
      receiverAlive := true;
      writes := 0;
    }
  }

  /** The sending half. */
  datatype Sender<T> = Sender(chan: Channel<T>)
  {
    /**
     * `Sender::send`, which consumes the sender: stores the value if the
     * receiver still exists, and hands the same value back if it does not.
     */
    method Send(value: T) returns (r: Result<(), T>)
      requires chan.Valid() && chan.senderAlive
      modifies chan
      ensures chan.Valid() && !chan.senderAlive && chan.receiverAlive == old(chan.receiverAlive)
      ensures old(chan.receiverAlive) ==> r == Ok(()) && chan.cell == Some(value) && chan.writes == 1
      ensures !old(chan.receiverAlive) ==> r == Err(value) && chan.cell == old(chan.cell) && chan.writes == old(chan.writes)
    {
      if chan.receiverAlive {
        chan.cell := Some(value);
        chan.writes := chan.writes + 1;
        r := Ok(());
      } else {
        r := Err(value);
      }
      chan.senderAlive := false;
    }

    /** Dropping the sender without sending. */
    method Drop()
      requires chan.Valid()
      modifies chan
      ensures chan.Valid() && !chan.senderAlive
      ensures chan.cell == old(chan.cell) && chan.receiverAlive == old(chan.receiverAlive) && chan.writes == old(chan.writes)
    {
      chan.senderAlive := false;
    }
  }

  /** The receiving half. */
  datatype Receiver<T> = Receiver(chan: Channel<T>)
  {
    /**
     * `Receiver::take`, which consumes the receiver: a stored value comes out
     * and leaves the cell empty; with no value the same receiver comes back
     * while the sender exists, and `None` once it is gone.
     */
    method Take() returns (r: Result<T, Option<Receiver<T>>>)
      requires chan.Valid() && chan.receiverAlive
      modifies chan
      ensures chan.Valid() && chan.cell == None
      ensures chan.senderAlive == old(chan.senderAlive) && chan.writes == old(chan.writes)
      ensures old(chan.cell).Some? ==> r == Ok(old(chan.cell).value) && !chan.receiverAlive
      ensures old(chan.cell).None? && old(chan.senderAlive) ==> r == Err(Some(this)) && chan.receiverAlive
      ensures old(chan.cell).None? && !old(chan.senderAlive) ==> r == Err(None) && !chan.receiverAlive
    {
      var taken := chan.cell;
      chan.cell := None;
      match taken {
        case None =>
          if chan.senderAlive {
            r := Err(Some(this));
          } else {
            chan.receiverAlive := false;
            r := Err(None);
          }
        case Some(value) =>
          chan.receiverAlive := false;
          r := Ok(value);
      }
    }

    /** Dropping the receiver: the cell goes, and a later `send` fails. */
    method Drop()
      requires chan.Valid()
      modifies chan
      ensures chan.Valid() && !chan.receiverAlive
      ensures chan.cell == old(chan.cell) && chan.senderAlive == old(chan.senderAlive) && chan.writes == old(chan.writes)
    {
      chan.receiverAlive := false;
    }
  }

  /** `drop_off::new`: an empty cell with both halves alive. */
  method New<T>() returns (s: Sender<T>, r: Receiver<T>)
    ensures fresh(s.chan) && r.chan == s.chan
    ensures s.chan.Valid() && s.chan.cell == None && s.chan.senderAlive && s.chan.receiverAlive && s.chan.writes == 0
  {
    var chan := new Channel();
    s, r := Sender(chan), Receiver(chan);
  }

  /**
   * The module's documented example: a first `take` gives the receiver back,
   * `send(42)` succeeds, and the second `take` yields 42, after which the
   * cell is empty and no half can write or read it again.
   */
  method DocExample() returns (first: Result<int, Option<Receiver<int>>>, sent: Result<(), int>,
                                second: Result<int, Option<Receiver<int>>>)
    ensures first.Err? && first.error.Some?
    ensures sent == Ok(())
    ensures second == Ok(42)
    ensures first.error.value.chan.cell == None
    ensures !first.error.value.chan.senderAlive && !first.error.value.chan.receiverAlive
  {
    var sender, receiver := New<int>();
    first := receiver.Take();
    var again := first.error.value;
    sent := sender.Send(42);
    second := again.Take();
  }

  /** A sender dropped before sending: `take` reports that no value will ever come. */
  method SenderGoneFirst() returns (r: Result<int, Option<Receiver<int>>>)
    ensures r == Err(None)
  {
    var sender, receiver := New<int>();
    sender.Drop();
    r := receiver.Take();
  }

  /** A receiver dropped before the send: `send(7)` hands 7 back. */
  method ReceiverGoneFirst() returns (r: Result<(), int>)
    ensures r == Err(7)
  {
    var sender, receiver := New<int>();
    receiver.Drop();
    r := sender.Send(7);
  }
}
