/**
 The document store the three functions work on, and the functions themselves.
 Each store transaction is one atomic step that reads one document (possibly
 absent) and writes one; whether its commit succeeds is an input, since the
 store's retries and conflicts are not modelled. The per-line fan-out, joined
 by `Promise.all`, is run as a loop in list order (the item reports do not
 depend on that order: `Reports.ItemReportsOrderIndependent`).
 */
module Store {

  import opened Optional
  import opened DateKeys
  import opened Orders
  import opened Reports
  import opened Archival

  /** What the completion handler ends with; nothing is ever thrown out of it. */
  datatype CompletionOutcome =
    | Skipped        // the guard did not fire
    | Reported       // every transaction committed: the success log line
    | ErrorLogged    // a transaction failed and the catch logged it

  /** What the sweep ends with, as its three log lines tell. */
  datatype SweepOutcome = NothingToArchive | Archived(count: nat) | BatchFailed

  /** `createItemSalesMap`: fills a fresh map line by line. */
  method CreateItemSalesMap(items: seq<LineItem>) returns (m: map<string, int>)
    ensures m == ItemSalesMap(items)
    ensures m.Keys == Ids(items)
  {
    m := map[];
    var i := 0;
    while i < |items|
      invariant 0 <= i <= |items|
      invariant m == ItemSalesMap(items[..i])
    {
      assert items[..i + 1][..i] == items[..i];
      m := m[items[i].itemId := items[i].quantity];
      i := i + 1;
    }
    assert items[..|items|] == items;
    ItemSalesMapKeys(items);
  }

  lemma MergeItemCountsStep(counts: map<string, int>, items: seq<LineItem>, i: nat)
    requires i < |items|
    ensures MergeItemCounts(counts, items[..i + 1]) ==
            AddAt(MergeItemCounts(counts, items[..i]), items[i].itemId, items[i].quantity)
  {
    assert items[..i + 1][..i] == items[..i];
  }

  /** The update path's copy-and-add loop over the lines. */
  method AddItemCounts(counts: map<string, int>, items: seq<LineItem>) returns (updated: map<string, int>)
    ensures updated == MergeItemCounts(counts, items)
    ensures updated.Keys == counts.Keys + Ids(items)
    ensures forall k :: Get0(updated, k) == Get0(counts, k) + SumQuantity(items, k)
  {
    updated := counts;
    var i := 0;
    while i < |items|
      invariant 0 <= i <= |items|
      invariant updated == MergeItemCounts(counts, items[..i])
    {
      MergeItemCountsStep(counts, items, i);
      var item := items[i];
      var currentCount := if item.itemId in updated then updated[item.itemId] else 0;
      updated := updated[item.itemId := currentCount + item.quantity];
      i := i + 1;
    }
    assert items[..|items|] == items;
    MergeItemCountsSums(counts, items);
  }

  /** The lines whose item-report transactions commit: those whose index is not in `failing`. */
  function CommittedItems(items: seq<LineItem>, failing: set<nat>): (r: seq<LineItem>)
    ensures |r| <= |items|
  {
    if |items| == 0 then []
    else CommittedItems(items[..|items| - 1], failing) +
         (if |items| - 1 in failing then [] else [items[|items| - 1]])
  }

  /** No line below index `n` has a failing transaction. */
  predicate NoneFailing(n: nat, failing: set<nat>)
  {
    forall i :: 0 <= i < n ==> i !in failing
  }

  lemma NoneFailingStep(n: nat, failing: set<nat>)
    ensures NoneFailing(n + 1, failing) <==> NoneFailing(n, failing) && n !in failing
  {
  }

  /** When no transaction fails, every line is committed. */
  lemma {:induction false} CommittedItemsAll(items: seq<LineItem>, failing: set<nat>)
    requires NoneFailing(|items|, failing)
    ensures CommittedItems(items, failing) == items
  {
    if |items| > 0 {
      var init := items[..|items| - 1];
      CommittedItemsAll(init, failing);
      assert items == init + [items[|items| - 1]];
    }
  }

  /** One more line: its transaction is applied after the earlier committed ones, or not at all. */
  lemma CommittedItemsStep(reports: map<string, ItemReport>, items: seq<LineItem>, i: nat, failing: set<nat>)
    requires i < |items|
    ensures ApplyItems(reports, CommittedItems(items[..i + 1], failing)) ==
            if i in failing then ApplyItems(reports, CommittedItems(items[..i], failing))
            else ApplyItem(ApplyItems(reports, CommittedItems(items[..i], failing)), items[i])
  {
    var done := CommittedItems(items[..i], failing);
    assert items[..i + 1][..i] == items[..i];
    if i in failing {
      assert done + [] == done;
    } else {
      assert (done + [items[i]])[..|done|] == done;
    }
  }

  /**
   The sweep's `forEach` over the query result. The batch is held as the map of
   moves it stages: for each selected id, a `set` of the order's data into the
   archive under that id paired with a `delete` of the live document. The count
   goes up by one per order.
   */
  method StageArchiveBatch(live: map<string, Order>, snapshot: set<string>)
    returns (moves: map<string, Order>, count: nat)
    requires snapshot <= live.Keys
    ensures moves.Keys == snapshot
    ensures forall id :: id in moves ==> moves[id] == live[id]
    ensures count == |snapshot|
  {
    moves, count := map[], 0;
    var pending := snapshot;
    while pending != {}
      invariant pending <= snapshot
      invariant moves.Keys == snapshot - pending
      invariant forall k :: k in moves ==> moves[k] == live[k]
      invariant count + |pending| == |snapshot|
      decreases pending
    {
      var id :| id in pending;
      moves := moves[id := live[id]];
      count := count + 1;
      pending := pending - {id};
    }
  }

  /** A batch holding one move per selected order is exactly the sweep's archive write. */
  lemma BatchIsSweep(archive: map<string, Order>, orders: map<string, Order>, cutoff: int,
                     moves: map<string, Order>)
    requires moves.Keys == Selected(orders, cutoff)
    requires forall id :: id in moves ==> moves[id] == orders[id]
    ensures archive + moves == ArchiveAfterSweep(archive, orders, cutoff)
  {
  }

  /** Every daily report is stored under its own date. */
  predicate DailyReportsKeyed(reports: map<string, DailyReport>)
  {
    forall k :: k in reports ==> reports[k].date == k
  }

  lemma DailyReportsKeyedUpdate(reports: map<string, DailyReport>, written: DailyReport)
    requires DailyReportsKeyed(reports)
    ensures DailyReportsKeyed(reports[written.date := written])
  {
  }

  class Database {
    var dailyReports: map<string, DailyReport>
    var itemReports: map<string, ItemReport>
    var orders: map<string, Order>
    var archivedOrders: map<string, Order>

    /** Each report document carries its own key: the date, or the item id. */
    ghost predicate Valid()
      reads this`dailyReports, this`itemReports
    {
      DailyReportsKeyed(dailyReports) && ItemReportsKeyed(itemReports)
    }

    constructor (orders: map<string, Order>)
      ensures Valid()
      ensures this.orders == orders && archivedOrders == map[]
      ensures dailyReports == map[] && itemReports == map[]
    {
      this.orders := orders;
      archivedOrders := map[];
      dailyReports := map[];
      itemReports := map[];
    }

    /** One daily-report transaction: read the day's document, write its created or updated version. */
    method RunDailyTransaction(date: string, sale: Sale, commits: bool) returns (ok: bool)
      requires Valid()
      modifies this`dailyReports
      ensures Valid()
      ensures ok == commits
      ensures dailyReports == if commits then ApplyDaily(old(dailyReports), date, sale) else old(dailyReports)
    {
      var existing := Lookup(dailyReports, date);
      var written: DailyReport;
      if existing.None? {
        var counts := CreateItemSalesMap(sale.items);
        written := DailyReport(date, sale.amount, 1, counts, map[sale.hour := sale.amount]);
        assert written == DailyTransition(existing, date, sale);
      } else {
        var data := existing.value;
        var counts := AddItemCounts(data.itemSalesCount, sale.items);
        var hourly := data.hourlyRevenue;
        var currentHourRevenue := if sale.hour in hourly then hourly[sale.hour] else 0;
        hourly := hourly[sale.hour := currentHourRevenue + sale.amount];
        written := data.(totalRevenue := data.totalRevenue + sale.amount,
                         totalOrders := data.totalOrders + 1,
                         itemSalesCount := counts,
                         hourlyRevenue := hourly);
        assert hourly == AddAt(data.hourlyRevenue, sale.hour, sale.amount);
        assert written == DailyTransition(existing, date, sale);
      }
      assert written.date == date;
      if commits {
        DailyReportsKeyedUpdate(dailyReports, written);
        dailyReports := dailyReports[date := written];
      }
      ok := commits;
    }

    /** One item-report transaction for one line. */
    method RunItemTransaction(item: LineItem, commits: bool) returns (ok: bool)
      requires Valid()
      modifies this`itemReports
      ensures Valid()
      ensures ok == commits
      ensures itemReports == if commits then ApplyItem(old(itemReports), item) else old(itemReports)
    {
      var existing := Lookup(itemReports, item.itemId);
      var written: ItemReport;
      if existing.None? {
        written := ItemReport(item.itemId, item.quantity, item.price * item.quantity);
      } else {
        var data := existing.value;
        written := data.(totalSoldAllTime := data.totalSoldAllTime + item.quantity,
                         totalRevenueAllTime := data.totalRevenueAllTime + item.price * item.quantity);
      }
      if commits {
        itemReports := itemReports[item.itemId := written];
      }
      ok := commits;
    }

    /**
     The fan-out over the order's lines: one item-report transaction per line,
     in list order; the line at index `i` commits unless `i` is in `failing`.
     `allOk` is what `Promise.all` reports: every transaction committed.
     */
    method RunItemTransactions(items: seq<LineItem>, failing: set<nat>) returns (allOk: bool)
      requires Valid()
      modifies this`itemReports
      ensures Valid()
      ensures itemReports == ApplyItems(old(itemReports), CommittedItems(items, failing))
      ensures allOk <==> NoneFailing(|items|, failing)
    {
      ghost var start := itemReports;
      allOk := true;
      var i := 0;
      while i < |items|
        invariant 0 <= i <= |items|
        invariant Valid()
        invariant itemReports == ApplyItems(start, CommittedItems(items[..i], failing))
        invariant allOk <==> NoneFailing(i, failing)
      {
        CommittedItemsStep(start, items, i, failing);
        NoneFailingStep(i, failing);
        var ok := RunItemTransaction(items[i], i !in failing);
        allOk := allOk && ok;
        i := i + 1;
      }
      assert items[..|items|] == items;
    }

    /**
     The completion trigger. `local` is the order's `createdAt` read in the
     function's time zone; `dailyCommits` and `failing` say which transactions
     commit. The item reports are touched only after the daily transaction has
     committed, and the method always returns normally.
     */
    method OnOrderCompleted(before: Order, after: Order, local: LocalDateTime,
                            dailyCommits: bool, failing: set<nat>) returns (outcome: CompletionOutcome)
      requires Valid()
      modifies this`dailyReports, this`itemReports
      ensures Valid()
      ensures !ShouldAggregate(before, after) ==>
                outcome == Skipped &&
                dailyReports == old(dailyReports) && itemReports == old(itemReports)
      ensures ShouldAggregate(before, after) && !dailyCommits ==>
                outcome == ErrorLogged &&
                dailyReports == old(dailyReports) && itemReports == old(itemReports)
      ensures ShouldAggregate(before, after) && dailyCommits ==>
                && dailyReports == ApplyDaily(old(dailyReports), FormatDate(local),
                                              Sale(HourKey(local), after.totalAmount, after.items))
                && itemReports == ApplyItems(old(itemReports), CommittedItems(after.items, failing))
                && outcome == if NoneFailing(|after.items|, failing) then Reported else ErrorLogged
    {
      if !ShouldAggregate(before, after) {
        return Skipped;
      }
      var dateStr := FormatDate(local);
      var hour := HourKey(local);
      var dailyOk := RunDailyTransaction(dateStr, Sale(hour, after.totalAmount, after.items), dailyCommits);
      if !dailyOk {
        return ErrorLogged;
      }
      var allOk := RunItemTransactions(after.items, failing);
      outcome := if allOk then Reported else ErrorLogged;
    }

    /**
     The scheduled sweep: every live order created before `cutoff` and completed
     or cancelled is written to the archive under its own id and deleted from
     the live collection, in one batch that commits in full (`commits`) or not
     at all.
     */
    method CleanupOldOrders(cutoff: int, commits: bool) returns (outcome: SweepOutcome)
      modifies this`orders, this`archivedOrders
      ensures Selected(old(orders), cutoff) == {} ==>
                outcome == NothingToArchive &&
                orders == old(orders) && archivedOrders == old(archivedOrders)
      ensures Selected(old(orders), cutoff) != {} && !commits ==>
                outcome == BatchFailed &&
                orders == old(orders) && archivedOrders == old(archivedOrders)
      ensures Selected(old(orders), cutoff) != {} && commits ==>
                && outcome == Archived(|Selected(old(orders), cutoff)|)
                && orders == LiveAfterSweep(old(orders), cutoff)
                && archivedOrders == ArchiveAfterSweep(old(archivedOrders), old(orders), cutoff)
    {
      var snapshot := Selected(orders, cutoff);
      if snapshot == {} {
        outcome := NothingToArchive;
      } else {
        var moves, count := StageArchiveBatch(orders, snapshot);
        if !commits {
          outcome := BatchFailed;
        } else {
          BatchIsSweep(archivedOrders, orders, cutoff, moves);
          archivedOrders := archivedOrders + moves;
          orders := orders - moves.Keys;
          outcome := Archived(count);
        }
      }
    }
  }
}
