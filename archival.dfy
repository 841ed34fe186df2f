/**
 The archival sweep as values: which live orders the scheduled query selects,
 and the two collections after its batch commits.
 */
module Archival {

  import opened Orders

  /** The query's two filters: created before the cutoff, and completed or cancelled. */
  predicate Archivable(o: Order, cutoff: int)
  {
    o.createdAt < cutoff && (o.status == Completed || o.status == Cancelled)
  }

  /** The ids the query returns. */
  function Selected(orders: map<string, Order>, cutoff: int): set<string>
  {
    set id | id in orders && Archivable(orders[id], cutoff)
  }

  /** The live collection after the batch: every selected order deleted. */
  function LiveAfterSweep(orders: map<string, Order>, cutoff: int): map<string, Order>
  {
    orders - Selected(orders, cutoff)
  }

  /** The archive after the batch: every selected order written under its own id. */
  function ArchiveAfterSweep(archive: map<string, Order>, orders: map<string, Order>, cutoff: int): map<string, Order>
  {
    archive + map id | id in Selected(orders, cutoff) :: orders[id]
  }

  /** Every selected order is in the archive with its data unchanged, and is no longer live. */
  lemma SweepMovesSelected(archive: map<string, Order>, orders: map<string, Order>, cutoff: int, id: string)
    requires id in orders && Archivable(orders[id], cutoff)
    ensures id !in LiveAfterSweep(orders, cutoff)
    ensures id in ArchiveAfterSweep(archive, orders, cutoff)
    ensures ArchiveAfterSweep(archive, orders, cutoff)[id] == orders[id]
  {
  }

  /** Every other live order stays live with its data, and no other archived order changes. */
  lemma SweepKeepsOthers(archive: map<string, Order>, orders: map<string, Order>, cutoff: int)
    ensures LiveAfterSweep(orders, cutoff).Keys <= orders.Keys
    ensures forall id :: id in orders && !Archivable(orders[id], cutoff) ==>
              id in LiveAfterSweep(orders, cutoff) && LiveAfterSweep(orders, cutoff)[id] == orders[id]
    ensures forall id :: id in archive && id !in Selected(orders, cutoff) ==>
              ArchiveAfterSweep(archive, orders, cutoff)[id] == archive[id]
  {
  }

  /**
   No order is lost: each one is afterwards either still live with its data,
   or no longer live and archived with its data.
   */
  lemma SweepLosesNothing(archive: map<string, Order>, orders: map<string, Order>, cutoff: int)
    ensures forall id :: id in orders ==>
      var live, archived := LiveAfterSweep(orders, cutoff), ArchiveAfterSweep(archive, orders, cutoff);
      (id in live && live[id] == orders[id]) ||
      (id !in live && id in archived && archived[id] == orders[id])
  {
  }

  /** The number archived is the number of orders that left the live collection. */
  lemma SweepCount(orders: map<string, Order>, cutoff: int)
    ensures |Selected(orders, cutoff)| == |orders| - |LiveAfterSweep(orders, cutoff)|
  {
  }

  /** A sweep with nothing to select changes nothing. */
  lemma EmptySelectionChangesNothing(archive: map<string, Order>, orders: map<string, Order>, cutoff: int)
    requires Selected(orders, cutoff) == {}
    ensures LiveAfterSweep(orders, cutoff) == orders
    ensures ArchiveAfterSweep(archive, orders, cutoff) == archive
  {
  }

  /** An immediate second sweep with the same cutoff selects nothing, so it is a no-op. */
  lemma SecondSweepIsNoOp(archive: map<string, Order>, orders: map<string, Order>, cutoff: int)
    ensures Selected(LiveAfterSweep(orders, cutoff), cutoff) == {}
    ensures LiveAfterSweep(LiveAfterSweep(orders, cutoff), cutoff) == LiveAfterSweep(orders, cutoff)
    ensures ArchiveAfterSweep(ArchiveAfterSweep(archive, orders, cutoff), LiveAfterSweep(orders, cutoff), cutoff) ==
            ArchiveAfterSweep(archive, orders, cutoff)
  {
  }
}
