/**
 Orders as the triggers see them, the status transition guards of the two
 update triggers, and the per-item sums over an order's line items.
 */
module Orders {

  const Completed: string := "completed"
  const Cancelled: string := "cancelled"
  const Ready: string := "ready"

  /** One order line. Amounts are whole currency units; nothing checks that they are positive. */
  datatype LineItem = LineItem(itemId: string, quantity: int, price: int)

  /**
   An order document. `createdAt` is the stored timestamp (milliseconds);
   the archive copies the whole value, whatever it holds.
   */
  datatype Order = Order(status: string, totalAmount: int, createdAt: int,
                         items: seq<LineItem>, tableNumber: int)

  /** The guard shape of both update triggers: the status becomes `target` in this update. */
  predicate Enters(before: string, after: string, target: string)
  {
    before != target && after == target
  }

  /** The guard of the completion trigger. */
  predicate ShouldAggregate(before: Order, after: Order)
  {
    Enters(before.status, after.status, Completed)
  }

  /** The guard of the ready trigger, whose body only logs. */
  predicate ShouldNotifyReady(before: Order, after: Order)
  {
    Enters(before.status, after.status, Ready)
  }

  /** A re-delivered completed-to-completed update never aggregates again. */
  lemma RedeliveryDoesNotAggregate(before: Order, after: Order)
    requires before.status == Completed
    ensures !ShouldAggregate(before, after)
  {
  }

  /** One update cannot fire both triggers: the two statuses differ. */
  lemma GuardsAreExclusive(before: Order, after: Order)
    ensures !(ShouldAggregate(before, after) && ShouldNotifyReady(before, after))
  {
  }

  /** How often the guard fires along a history of successive status values. */
  function Entries(history: seq<string>, target: string): nat
  {
    if |history| < 2 then 0
    else (if Enters(history[0], history[1], target) then 1 else 0) + Entries(history[1..], target)
  }

  /** Once reached, `target` is never left. */
  predicate Absorbing(history: seq<string>, target: string)
  {
    forall i, j :: 0 <= i <= j < |history| && history[i] == target ==> history[j] == target
  }

  /**
   When an order never leaves `completed` once it is there, the completion trigger
   fires once along its history exactly when the history reaches `completed`
   from another status, and never otherwise.
   */
  lemma {:induction false} EntriesOfAbsorbingStatus(history: seq<string>, target: string)
    requires Absorbing(history, target)
    ensures Entries(history, target) ==
            (if 0 < |history| && history[0] != target && target in history then 1 else 0)
  {
    if |history| >= 2 {
      var tail := history[1..];
      assert Absorbing(tail, target) by {
        forall i, j | 0 <= i <= j < |tail| && tail[i] == target
          ensures tail[j] == target
        {
          assert history[i + 1] == target;
        }
      }
      EntriesOfAbsorbingStatus(tail, target);
      assert target in history <==> history[0] == target || target in tail by {
        assert history == [history[0]] + tail;
      }
      if history[0] == target {
        assert tail[0] == target;
      } else if history[1] == target {
        assert target in tail;
      }
    } else if |history| == 1 {
      assert target in history <==> history[0] == target;
    }
  }

  /** The item ids an order mentions. */
  function Ids(items: seq<LineItem>): (ids: set<string>)
    ensures forall k :: k in ids <==> exists i :: 0 <= i < |items| && items[i].itemId == k
  {
    if |items| == 0 then {}
    else
      var ids := Ids(items[..|items| - 1]) + {items[|items| - 1].itemId};
      assert forall i :: 0 <= i < |items| - 1 ==> items[..|items| - 1][i] == items[i];
      ids
  }

  /** No item id occurs in two lines. */
  predicate DistinctIds(items: seq<LineItem>)
  {
    forall i, j :: 0 <= i < j < |items| ==> items[i].itemId != items[j].itemId
  }

  /** Total quantity over all lines of `id`, duplicates included. */
  function SumQuantity(items: seq<LineItem>, id: string): int
  {
    if |items| == 0 then 0
    else SumQuantity(items[..|items| - 1], id) +
         (if items[|items| - 1].itemId == id then items[|items| - 1].quantity else 0)
  }

  /** Total `price * quantity` over all lines of `id`, duplicates included. */
  function SumRevenue(items: seq<LineItem>, id: string): int
  {
    if |items| == 0 then 0
    else SumRevenue(items[..|items| - 1], id) +
         (if items[|items| - 1].itemId == id then items[|items| - 1].price * items[|items| - 1].quantity else 0)
  }

  /** An id the order does not mention contributes nothing. */
  lemma {:induction false} SumsOfAbsentId(items: seq<LineItem>, id: string)
    requires id !in Ids(items)
    ensures SumQuantity(items, id) == 0 && SumRevenue(items, id) == 0
  {
    if |items| > 0 {
      var init := items[..|items| - 1];
      assert id !in Ids(init) by {
        assert forall i :: 0 <= i < |init| ==> init[i] == items[i];
      }
      SumsOfAbsentId(init, id);
    }
  }

  /** With distinct ids the sum for a line's id is that line's own quantity. */
  lemma {:induction false} SumOfDistinctLine(items: seq<LineItem>, i: nat)
    requires DistinctIds(items) && i < |items|
    ensures SumQuantity(items, items[i].itemId) == items[i].quantity
  {
    var n := |items|;
    var init := items[..n - 1];
    assert DistinctIds(init);
    if i == n - 1 {
      assert items[i].itemId !in Ids(init);
      SumsOfAbsentId(init, items[i].itemId);
    } else {
      assert init[i] == items[i];
      SumOfDistinctLine(init, i);
    }
  }
}
