/**
 * The ready queue: the `index_queue` crate's `IndexQueue`, a FIFO of queue
 * indices with set semantics.  The crate is not part of this model; its
 * behaviour is taken as given: `push_back` leaves an index that is already
 * queued where it is, `remove` takes an index out wherever it is, and
 * `pop_front` yields the oldest index.
 */
module IndexQueues {
  import opened Prelude

  /** No index occurs twice. */
  predicate NoDup(s: seq<nat>)
  {
    forall i, j :: 0 <= i < j < |s| ==> s[i] != s[j]
  }

  /** The queue after `push_back(x)`. */
  function PushedBack(s: seq<nat>, x: nat): (r: seq<nat>)
    ensures x in r
    ensures forall y :: y in r <==> y in s || y == x
    ensures NoDup(s) ==> NoDup(r)
    ensures x in s ==> r == s
  {
    if x in s then s else s + [x]
  }

  /** The queue after `remove(x)`: every entry other than `x`, in order. */
  function Removed(s: seq<nat>, x: nat): (r: seq<nat>)
    ensures forall y :: y in r <==> y in s && y != x
    ensures NoDup(s) ==> NoDup(r)
    ensures |r| <= |s|
  {
    if s == [] then []
    else if s[0] == x then Removed(s[1..], x)
    else
      NoDupCons(s[0], s[1..]);
      NoDupCons(s[0], Removed(s[1..], x));
      [s[0]] + Removed(s[1..], x)
  }

  /** A queue starting with `a` is duplicate-free when its rest is and does not hold `a`. */
  lemma NoDupCons(a: nat, t: seq<nat>)
    ensures NoDup([a] + t) <==> a !in t && NoDup(t)
  {
    var s := [a] + t;
    if NoDup(s) {
      forall i, j | 0 <= i < j < |t| ensures t[i] != t[j] {
        assert s[i + 1] == t[i] && s[j + 1] == t[j];
      }
      forall k | 0 <= k < |t| ensures t[k] != a {
        assert s[0] == a && s[k + 1] == t[k];
      }
    }
  }

  /** Removing an index that is not queued changes nothing. */
  lemma {:induction false} RemovedAbsent(s: seq<nat>, x: nat)
    requires x !in s
    ensures Removed(s, x) == s
  {
    if s != [] {
      RemovedAbsent(s[1..], x);
    }
  }

  /**
   * Removing a queued index from a duplicate-free queue cuts out exactly that
   * one entry and keeps the others in order.
   */
  lemma {:induction false} RemovedAt(s: seq<nat>, x: nat, k: nat)
    requires NoDup(s) && k < |s| && s[k] == x
    ensures Removed(s, x) == s[..k] + s[k + 1..]
  {
    assert s == [s[0]] + s[1..];
    NoDupCons(s[0], s[1..]);
    if k == 0 {
      RemovedAbsent(s[1..], x);
    } else {
      assert s[1..][k - 1] == x;
      RemovedAt(s[1..], x, k - 1);
      assert s[..k] == [s[0]] + s[1..][..k - 1];
      assert s[k + 1..] == s[1..][k..];
    }
  }

  /** A queue without duplicates holds each queued index exactly once. */
  lemma {:induction false} NoDupOnce(s: seq<nat>, x: nat)
    requires NoDup(s)
    ensures multiset(s)[x] == if x in s then 1 else 0
  {
    if s != [] {
      assert s == [s[0]] + s[1..];
      NoDupCons(s[0], s[1..]);
      NoDupOnce(s[1..], x);
      if s[0] == x {
        assert x !in s[1..];
      }
    }
  }

  /**
   * After `push_back(x)` a duplicate-free queue holds `x` exactly once, and
   * pushing it a second time changes nothing.
   */
  lemma PushedBackOnce(s: seq<nat>, x: nat)
    requires NoDup(s)
    ensures multiset(PushedBack(s, x))[x] == 1
    ensures PushedBack(PushedBack(s, x), x) == PushedBack(s, x)
  {
    NoDupOnce(PushedBack(s, x), x);
  }

  /**
   * Pushing an index and then removing it leaves the queue as removing it
   * alone would: a task that wakes itself and then completes leaves no entry.
   */
  lemma {:induction false} RemovedAfterPush(s: seq<nat>, x: nat)
    ensures Removed(PushedBack(s, x), x) == Removed(s, x)
  {
    if x !in s {
      RemovedAppend(s, [x], x);
      assert Removed([x], x) == [];
    }
  }

  lemma {:induction false} RemovedAppend(s: seq<nat>, t: seq<nat>, x: nat)
    ensures Removed(s + t, x) == Removed(s, x) + Removed(t, x)
  {
    if s == [] {
      assert s + t == t;
    } else {
      assert (s + t)[1..] == s[1..] + t;
      RemovedAppend(s[1..], t, x);
    }
  }

  /** The shared `Mutex<IndexQueue>`, without the mutex. */
  class IndexQueue {
    var items: seq<nat>

    ghost predicate Valid()
      reads this
    {
      NoDup(items)
    }

    constructor ()
      ensures Valid() && items == []
    {
      items := [];
    }

    method PushBack(x: nat)
      requires Valid()
      modifies this
      ensures Valid()
      ensures items == PushedBack(old(items), x)
    {
      items := PushedBack(items, x);
    }

    method Remove(x: nat)
      requires Valid()
      modifies this
      ensures Valid()
      ensures items == Removed(old(items), x)
    {
      items := Removed(items, x);
    }

    method PopFront() returns (r: Option<nat>)
      requires Valid()
      modifies this
      ensures Valid()
      ensures old(items) == [] ==> r == None && items == []
      ensures old(items) != [] ==> r == Some(old(items)[0]) && items == old(items)[1..]
    {
      if items == [] {
        r := None;
      } else {
        r := Some(items[0]);
        items := items[1..];
      }
    }
  }
}
