/**
 * Task identifiers.  One flat space of queue indices names every task: index 0
 * is the main task and index `i + 1` is the auxiliary task stored in arena
 * slot `i`.  Indices are `usize`, and `!0` (all bits set) is never an index.
 */
module SpawnIds {
  import opened Prelude

  /** `!0` for a 64-bit `usize`. */
  const UsizeMax: nat := 0xFFFF_FFFF_FFFF_FFFF

  datatype SpawnId = SpawnId(index: nat)
  {
    function ToQueueIndex(): nat
    {
      index
    }

    /**
     * The arena slot of an auxiliary id, and `None` for the main id.  The
     * subtraction cannot underflow because only the main id has index 0.
     */
    function ToAux(): (r: Option<nat>)
      ensures r.None? <==> this == Main()
    {
      if this == Main() then None else Some(ToQueueIndex() - 1)
    }
  }

  /** The id that stands for the queue index `queueIndex`, which must not be `!0`. */
  function FromQueueIndex(queueIndex: nat): (id: SpawnId)
    requires queueIndex < UsizeMax
    ensures id.ToQueueIndex() == queueIndex
  {
    SpawnId(queueIndex)
  }

  /** The id of the main task. */
  function Main(): (id: SpawnId)
    ensures id.ToQueueIndex() == 0
  {
    FromQueueIndex(0)
  }

  /**
   * The id of auxiliary slot `auxIndex`.  The bound keeps `auxIndex + 1` a
   * valid queue index (different from `!0`).
   */
  function Aux(auxIndex: nat): (id: SpawnId)
    requires auxIndex < UsizeMax - 1
    ensures id.ToQueueIndex() < UsizeMax
  {
    FromQueueIndex(auxIndex + 1)
  }

  lemma AuxToAux(auxIndex: nat)
    requires auxIndex < UsizeMax - 1
    ensures Aux(auxIndex).ToAux() == Some(auxIndex)
    ensures Aux(auxIndex) != Main()
  {
  }

  lemma MainToAux()
    ensures Main().ToAux() == None
  {
  }

  /** Every id that is not the main one is the id of the slot `ToAux` gives. */
  lemma ToAuxInverse(id: SpawnId)
    requires id.ToQueueIndex() < UsizeMax
    ensures id.ToAux().Some? ==> id.ToAux().value < UsizeMax - 1 && Aux(id.ToAux().value) == id
  {
  }

  /** Distinct slots get distinct ids. */
  lemma AuxInjective(i: nat, j: nat)
    requires i < UsizeMax - 1 && j < UsizeMax - 1
    ensures Aux(i) == Aux(j) <==> i == j
  {
  }
}
