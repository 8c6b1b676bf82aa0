/**
 * The task store: the `vec_arena` crate's `Arena`, a vector of slots that are
 * vacant or occupied, whose `insert` reuses a vacant slot.  The crate is not
 * part of this model; its behaviour is taken as given here, with two choices
 * the executor's own code does not fix: `insert` takes the lowest vacant slot
 * (appending one when none is vacant), and `remove` of a vacant or missing
 * slot does nothing.
 */
module Arenas {
  import opened Prelude

  datatype Entry<+T> = Vacant | Occupied(value: T)

  /** The slot `insert` uses: the first vacant one, or a new one at the end. */
  function VacantIndex<T>(slots: seq<Entry<T>>): (i: nat)
    ensures i <= |slots|
    ensures i < |slots| ==> slots[i].Vacant?
    ensures forall j :: 0 <= j < i ==> slots[j].Occupied?
  {
    if slots == [] then 0
    else if slots[0].Vacant? then 0
    else 1 + VacantIndex(slots[1..])
  }

  /** The arena after `insert(v)`: `v` in the slot `VacantIndex` names, nothing else changed. */
  function Inserted<T>(slots: seq<Entry<T>>, v: T): (r: seq<Entry<T>>)
    ensures var i := VacantIndex(slots);
      && |r| == (if i == |slots| then |slots| + 1 else |slots|)
      && r[i] == Occupied(v)
      && forall j :: 0 <= j < |slots| && j != i ==> r[j] == slots[j]
  {
    var i := VacantIndex(slots);
    if i == |slots| then slots + [Occupied(v)] else slots[i := Occupied(v)]
  }

  /** `get_mut(i)`: the value of an occupied slot, `None` for a vacant or missing one. */
  function Get<T>(slots: seq<Entry<T>>, i: nat): (r: Option<T>)
    ensures r.Some? <==> i < |slots| && slots[i].Occupied?
    ensures r.Some? ==> slots[i] == Occupied(r.value)
  {
    if i < |slots| && slots[i].Occupied? then Some(slots[i].value) else None
  }

  /** The arena after `remove(i)`: slot `i` vacant, every other slot as it was. */
  function Freed<T>(slots: seq<Entry<T>>, i: nat): (r: seq<Entry<T>>)
    ensures |r| == |slots|
    ensures i < |slots| ==> r[i] == Vacant
    ensures forall j :: 0 <= j < |slots| && j != i ==> r[j] == slots[j]
  {
    if i < |slots| then slots[i := Vacant] else slots
  }
}
