/**
 The two report documents and what one transaction writes to each, as values:
 the daily report keyed by date and the all-time item report keyed by item id.
 A missing map entry counts as 0, as `x || 0` makes it in the handler.
 */
module Reports {

  import opened Optional
  import opened Orders

  datatype DailyReport = DailyReport(date: string, totalRevenue: int, totalOrders: int,
                                     itemSalesCount: map<string, int>,
                                     hourlyRevenue: map<string, int>)

  datatype ItemReport = ItemReport(itemId: string, totalSoldAllTime: int, totalRevenueAllTime: int)

  /** What one completed order contributes to its day: its hour bucket, its total and its lines. */
  datatype Sale = Sale(hour: string, amount: int, items: seq<LineItem>)

  /** `m[k] || 0`. */
  function Get0(m: map<string, int>, k: string): int
  {
    if k in m then m[k] else 0
  }

  /** `m[k] = (m[k] || 0) + v`. */
  function AddAt(m: map<string, int>, k: string, v: int): (r: map<string, int>)
    ensures r.Keys == m.Keys + {k}
    ensures forall j :: Get0(r, j) == Get0(m, j) + (if j == k then v else 0)
  {
    m[k := Get0(m, k) + v]
  }

  // ---------------------------------------------------------------------------
  // itemSalesCount

  /** `createItemSalesMap`: every line writes its quantity under its id, so a later line overwrites an earlier one. */
  function ItemSalesMap(items: seq<LineItem>): map<string, int>
  {
    if |items| == 0 then map[]
    else ItemSalesMap(items[..|items| - 1])[items[|items| - 1].itemId := items[|items| - 1].quantity]
  }

  lemma {:induction false} ItemSalesMapKeys(items: seq<LineItem>)
    ensures ItemSalesMap(items).Keys == Ids(items)
  {
    if |items| > 0 {
      ItemSalesMapKeys(items[..|items| - 1]);
    }
  }

  /** No line after line `i` has its id. */
  predicate LastLineOf(items: seq<LineItem>, i: nat)
    requires i < |items|
  {
    forall j :: i < j < |items| ==> items[j].itemId != items[i].itemId
  }

  /** The value under an id is the quantity of the last line with that id. */
  lemma {:induction false} ItemSalesMapLastWins(items: seq<LineItem>, i: nat)
    requires i < |items| && LastLineOf(items, i)
    ensures items[i].itemId in ItemSalesMap(items)
    ensures ItemSalesMap(items)[items[i].itemId] == items[i].quantity
  {
    if i < |items| - 1 {
      var init := items[..|items| - 1];
      assert init[i] == items[i];
      ItemSalesMapLastWins(init, i);
    }
  }

  /** The update path's `forEach`: each line adds its quantity to its id's count. */
  function MergeItemCounts(counts: map<string, int>, items: seq<LineItem>): map<string, int>
  {
    if |items| == 0 then counts
    else
      var last := items[|items| - 1];
      AddAt(MergeItemCounts(counts, items[..|items| - 1]), last.itemId, last.quantity)
  }

  /** Merging adds, for every id, the quantities of all its lines; it adds exactly the order's ids as keys. */
  lemma {:induction false} MergeItemCountsSums(counts: map<string, int>, items: seq<LineItem>)
    ensures MergeItemCounts(counts, items).Keys == counts.Keys + Ids(items)
    ensures forall k :: Get0(MergeItemCounts(counts, items), k) == Get0(counts, k) + SumQuantity(items, k)
  {
    if |items| > 0 {
      MergeItemCountsSums(counts, items[..|items| - 1]);
    }
  }

  /** Two counter maps with the same keys and the same counts are equal. */
  lemma SameCounts(m1: map<string, int>, m2: map<string, int>)
    requires m1.Keys == m2.Keys
    requires forall k :: Get0(m1, k) == Get0(m2, k)
    ensures m1 == m2
  {
    forall k | k in m1 ensures m1[k] == m2[k] {
      assert Get0(m1, k) == Get0(m2, k);
    }
  }

  /** Two merges give the same counts in either order. */
  lemma MergeItemCountsCommute(counts: map<string, int>, a: seq<LineItem>, b: seq<LineItem>)
    ensures MergeItemCounts(MergeItemCounts(counts, a), b) == MergeItemCounts(MergeItemCounts(counts, b), a)
  {
    var ma, mb := MergeItemCounts(counts, a), MergeItemCounts(counts, b);
    MergeItemCountsSums(counts, a);
    MergeItemCountsSums(counts, b);
    MergeItemCountsSums(ma, b);
    MergeItemCountsSums(mb, a);
    SameCounts(MergeItemCounts(ma, b), MergeItemCounts(mb, a));
  }

  /** With distinct ids the create path's map equals the update path applied to an empty map. */
  lemma CreateAgreesWithMergeWhenDistinct(items: seq<LineItem>)
    requires DistinctIds(items)
    ensures ItemSalesMap(items) == MergeItemCounts(map[], items)
  {
    var created, merged := ItemSalesMap(items), MergeItemCounts(map[], items);
    ItemSalesMapKeys(items);
    MergeItemCountsSums(map[], items);
    forall k | k in created ensures created[k] == merged[k] {
      var i :| 0 <= i < |items| && items[i].itemId == k;
      ItemSalesMapLastWins(items, i);
      SumOfDistinctLine(items, i);
      assert Get0(merged, k) == SumQuantity(items, k);
    }
  }

  /** The value under an id present in the map is the quantity of some line carrying that id. */
  lemma {:induction false} ItemSalesMapValueOfSomeLine(items: seq<LineItem>, k: string)
    requires k in ItemSalesMap(items)
    ensures exists l :: 0 <= l < |items| && items[l].itemId == k && ItemSalesMap(items)[k] == items[l].quantity
  {
    var n := |items|;
    if items[n - 1].itemId != k {
      var init := items[..n - 1];
      ItemSalesMapValueOfSomeLine(init, k);
      var l :| 0 <= l < |init| && init[l].itemId == k && ItemSalesMap(init)[k] == init[l].quantity;
      assert items[l] == init[l];
    }
  }

  /** With no negative quantity, the summed quantity of an id is at least that of any one of its lines. */
  lemma {:induction false} SumQuantityOneLine(items: seq<LineItem>, k: string, i: nat)
    requires i < |items| && items[i].itemId == k
    requires forall m :: 0 <= m < |items| ==> items[m].quantity >= 0
    ensures SumQuantity(items, k) >= items[i].quantity
  {
    var n := |items|;
    var init := items[..n - 1];
    if i < n - 1 {
      assert init[i] == items[i];
      SumQuantityOneLine(init, k, i);
    } else if n > 1 {
      SumQuantityNonNegative(init, k);
    }
  }

  lemma {:induction false} SumQuantityNonNegative(items: seq<LineItem>, k: string)
    requires forall m :: 0 <= m < |items| ==> items[m].quantity >= 0
    ensures SumQuantity(items, k) >= 0
  {
    if |items| > 0 {
      SumQuantityNonNegative(items[..|items| - 1], k);
    }
  }

  /** With no negative quantity, the summed quantity of an id is at least that of any two of its lines. */
  lemma {:induction false} SumQuantityTwoLines(items: seq<LineItem>, k: string, i: nat, j: nat)
    requires i < j < |items| && items[i].itemId == k && items[j].itemId == k
    requires forall m :: 0 <= m < |items| ==> items[m].quantity >= 0
    ensures SumQuantity(items, k) >= items[i].quantity + items[j].quantity
  {
    var n := |items|;
    var init := items[..n - 1];
    assert init[i] == items[i];
    if j == n - 1 {
      SumQuantityOneLine(init, k, i);
    } else {
      assert init[j] == items[j];
      SumQuantityTwoLines(init, k, i, j);
    }
  }

  /**
   The converse of `CreateAgreesWithMergeWhenDistinct`: when an order repeats an
   item id and every quantity is positive, `createItemSalesMap` and the update
   loop applied to an empty map differ.
   */
  lemma CreateDiffersFromMergeWhenRepeated(items: seq<LineItem>)
    requires forall i :: 0 <= i < |items| ==> items[i].quantity > 0
    requires !DistinctIds(items)
    ensures ItemSalesMap(items) != MergeItemCounts(map[], items)
  {
    var i, j :| 0 <= i < j < |items| && items[i].itemId == items[j].itemId;
    var k := items[i].itemId;
    ItemSalesMapKeys(items);
    assert k in Ids(items);
    ItemSalesMapValueOfSomeLine(items, k);
    var l :| 0 <= l < |items| && items[l].itemId == k && ItemSalesMap(items)[k] == items[l].quantity;
    var m := if l == i then j else i;
    if l < m {
      SumQuantityTwoLines(items, k, l, m);
    } else {
      SumQuantityTwoLines(items, k, m, l);
    }
    MergeItemCountsSums(map[], items);
    assert Get0(MergeItemCounts(map[], items), k) == SumQuantity(items, k);
  }

  /** Two lines of one item in the first order of a day are counted once, not summed. */
  lemma DuplicateLinesOverwriteOnCreate()
    ensures var items := [LineItem("coffee", 1, 20000), LineItem("coffee", 1, 20000)];
      ItemSalesMap(items)["coffee"] == 1 && MergeItemCounts(map[], items)["coffee"] == 2
  {
  }

  // ---------------------------------------------------------------------------
  // The daily report transaction

  /** The document one daily-report transaction writes, given the one it read. */
  function DailyTransition(existing: Option<DailyReport>, date: string, sale: Sale): DailyReport
  {
    match existing
    case None =>
      DailyReport(date, sale.amount, 1, ItemSalesMap(sale.items), map[sale.hour := sale.amount])
    case Some(d) =>
      d.(totalRevenue := d.totalRevenue + sale.amount,
         totalOrders := d.totalOrders + 1,
         itemSalesCount := MergeItemCounts(d.itemSalesCount, sale.items),
         hourlyRevenue := AddAt(d.hourlyRevenue, sale.hour, sale.amount))
  }

  /** The daily-reports collection after one transaction for `date`. */
  function ApplyDaily(reports: map<string, DailyReport>, date: string, sale: Sale): map<string, DailyReport>
  {
    reports[date := DailyTransition(Lookup(reports, date), date, sale)]
  }

  /** One transaction writes only its own date's document; every other date's report is left as it was. */
  lemma ApplyDailyTouchesOneDate(reports: map<string, DailyReport>, date: string, sale: Sale)
    ensures ApplyDaily(reports, date, sale).Keys == reports.Keys + {date}
    ensures forall k :: k in reports && k != date ==> ApplyDaily(reports, date, sale)[k] == reports[k]
  {
  }

  /** Create path: the first order of a day makes a report of that order alone. */
  lemma DailyCreatePath(date: string, sale: Sale)
    ensures var r := DailyTransition(None, date, sale);
      && r.date == date && r.totalRevenue == sale.amount && r.totalOrders == 1
      && r.itemSalesCount.Keys == Ids(sale.items)
      && (forall i :: 0 <= i < |sale.items| && LastLineOf(sale.items, i) ==>
            r.itemSalesCount[sale.items[i].itemId] == sale.items[i].quantity)
      && r.hourlyRevenue.Keys == {sale.hour} && r.hourlyRevenue[sale.hour] == sale.amount
  {
    ItemSalesMapKeys(sale.items);
    forall i | 0 <= i < |sale.items| && LastLineOf(sale.items, i)
      ensures ItemSalesMap(sale.items)[sale.items[i].itemId] == sale.items[i].quantity
    {
      ItemSalesMapLastWins(sale.items, i);
    }
  }

  /** Update path: every running total grows by this order's share; missing keys count as 0. */
  lemma DailyUpdatePath(d: DailyReport, date: string, sale: Sale)
    ensures var r := DailyTransition(Some(d), date, sale);
      && r.date == d.date
      && r.totalRevenue == d.totalRevenue + sale.amount
      && r.totalOrders == d.totalOrders + 1
      && r.itemSalesCount.Keys == d.itemSalesCount.Keys + Ids(sale.items)
      && (forall k :: Get0(r.itemSalesCount, k) == Get0(d.itemSalesCount, k) + SumQuantity(sale.items, k))
      && r.hourlyRevenue.Keys == d.hourlyRevenue.Keys + {sale.hour}
      && (forall h :: Get0(r.hourlyRevenue, h) ==
                      Get0(d.hourlyRevenue, h) + (if h == sale.hour then sale.amount else 0))
  {
    MergeItemCountsSums(d.itemSalesCount, sale.items);
  }

  /** The report a day would have before its first order. */
  function EmptyDailyReport(date: string): DailyReport
  {
    DailyReport(date, 0, 0, map[], map[])
  }

  /** With distinct ids, creating a report is the same as updating an empty one. */
  lemma CreateIsUpdateOfEmptyWhenDistinct(date: string, sale: Sale)
    requires DistinctIds(sale.items)
    ensures DailyTransition(None, date, sale) == DailyTransition(Some(EmptyDailyReport(date)), date, sale)
  {
    CreateAgreesWithMergeWhenDistinct(sale.items);
    assert AddAt(map[], sale.hour, sale.amount) == map[sale.hour := sale.amount];
  }

  /** Two additions into a counter map commute. */
  lemma AddAtCommute(m: map<string, int>, k1: string, v1: int, k2: string, v2: int)
    ensures AddAt(AddAt(m, k1, v1), k2, v2) == AddAt(AddAt(m, k2, v2), k1, v1)
  {
  }

  /** Two updates of an existing report commute. */
  lemma UpdatesCommute(d: DailyReport, date: string, s1: Sale, s2: Sale)
    ensures DailyTransition(Some(DailyTransition(Some(d), date, s1)), date, s2) ==
            DailyTransition(Some(DailyTransition(Some(d), date, s2)), date, s1)
  {
    MergeItemCountsCommute(d.itemSalesCount, s1.items, s2.items);
    AddAtCommute(d.hourlyRevenue, s1.hour, s1.amount, s2.hour, s2.amount);
  }

  /**
   Two completions for one day give the same report whichever commits first,
   once the day's report exists, or when neither order repeats an item id.
   */
  lemma DailyTransitionsCommute(existing: Option<DailyReport>, date: string, s1: Sale, s2: Sale)
    requires existing.Some? || (DistinctIds(s1.items) && DistinctIds(s2.items))
    ensures DailyTransition(Some(DailyTransition(existing, date, s1)), date, s2) ==
            DailyTransition(Some(DailyTransition(existing, date, s2)), date, s1)
  {
    var d := if existing.Some? then existing.value else EmptyDailyReport(date);
    if existing.None? {
      CreateIsUpdateOfEmptyWhenDistinct(date, s1);
      CreateIsUpdateOfEmptyWhenDistinct(date, s2);
    }
    UpdatesCommute(d, date, s1, s2);
  }

  // ---------------------------------------------------------------------------
  // A day's report over several completed orders

  /** The day's report after the transactions of `sales`, committed one after another. */
  function DailyFold(existing: Option<DailyReport>, date: string, sales: seq<Sale>): Option<DailyReport>
    decreases sales
  {
    if |sales| == 0 then existing
    else DailyFold(Some(DailyTransition(existing, date, sales[0])), date, sales[1..])
  }

  function TotalAmount(sales: seq<Sale>): int
  {
    if |sales| == 0 then 0 else sales[0].amount + TotalAmount(sales[1..])
  }

  function TotalQuantity(sales: seq<Sale>, id: string): int
  {
    if |sales| == 0 then 0 else SumQuantity(sales[0].items, id) + TotalQuantity(sales[1..], id)
  }

  function HourTotal(sales: seq<Sale>, hour: string): int
  {
    if |sales| == 0 then 0
    else (if sales[0].hour == hour then sales[0].amount else 0) + HourTotal(sales[1..], hour)
  }

  /** Folding into an existing report adds every order's total, count, quantities and hourly share. */
  lemma {:induction false} DailyFoldFromExisting(d: DailyReport, date: string, sales: seq<Sale>)
    ensures DailyFold(Some(d), date, sales).Some?
    ensures var r := DailyFold(Some(d), date, sales).value;
      && r.date == d.date
      && r.totalRevenue == d.totalRevenue + TotalAmount(sales)
      && r.totalOrders == d.totalOrders + |sales|
      && (forall k :: Get0(r.itemSalesCount, k) == Get0(d.itemSalesCount, k) + TotalQuantity(sales, k))
      && (forall h :: Get0(r.hourlyRevenue, h) == Get0(d.hourlyRevenue, h) + HourTotal(sales, h))
    decreases sales
  {
    if |sales| > 0 {
      var d1 := DailyTransition(Some(d), date, sales[0]);
      DailyUpdatePath(d, date, sales[0]);
      DailyFoldFromExisting(d1, date, sales[1..]);
    }
  }

  /**
   The sums the daily report promises: after the first N orders of a day its
   revenue is the sum of their totals, its count N and each hour bucket the sum
   of that hour's totals; each item count is the sum of that item's quantities
   when the day's first order does not repeat an item id.
   */
  lemma DailyFoldFromNothing(date: string, sales: seq<Sale>)
    requires |sales| > 0
    ensures DailyFold(None, date, sales).Some?
    ensures var r := DailyFold(None, date, sales).value;
      && r.date == date
      && r.totalRevenue == TotalAmount(sales)
      && r.totalOrders == |sales|
      && (forall h :: Get0(r.hourlyRevenue, h) == HourTotal(sales, h))
      && (DistinctIds(sales[0].items) ==>
            forall k :: Get0(r.itemSalesCount, k) == TotalQuantity(sales, k))
  {
    var d0 := DailyTransition(None, date, sales[0]);
    assert DailyFold(None, date, sales) == DailyFold(Some(d0), date, sales[1..]);
    DailyFoldFromExisting(d0, date, sales[1..]);
    if DistinctIds(sales[0].items) {
      CreateAgreesWithMergeWhenDistinct(sales[0].items);
      MergeItemCountsSums(map[], sales[0].items);
    }
  }

  /** When the day's first order repeats an item, that item's count falls short of the quantities sold. */
  lemma FirstOrderWithRepeatedItemUndercounts()
    ensures var sales := [Sale("14", 40000, [LineItem("coffee", 1, 20000), LineItem("coffee", 1, 20000)])];
      DailyFold(None, "2024-03-15", sales).Some? &&
      Get0(DailyFold(None, "2024-03-15", sales).value.itemSalesCount, "coffee") == 1 &&
      TotalQuantity(sales, "coffee") == 2
  {
    var items := [LineItem("coffee", 1, 20000), LineItem("coffee", 1, 20000)];
    var sales := [Sale("14", 40000, items)];
    DuplicateLinesOverwriteOnCreate();
    assert items[..1][..0] == [];
    assert items[..1] == [LineItem("coffee", 1, 20000)];
    assert SumQuantity(items, "coffee") == 2;
    assert sales[1..] == [];
  }

  // ---------------------------------------------------------------------------
  // The item report transactions

  /** The document one item-report transaction writes, given the one it read. */
  function ItemTransition(existing: Option<ItemReport>, item: LineItem): ItemReport
  {
    match existing
    case None => ItemReport(item.itemId, item.quantity, item.price * item.quantity)
    case Some(r) =>
      r.(totalSoldAllTime := r.totalSoldAllTime + item.quantity,
         totalRevenueAllTime := r.totalRevenueAllTime + item.price * item.quantity)
  }

  /** The item-reports collection after one line's transaction. */
  function ApplyItem(reports: map<string, ItemReport>, item: LineItem): map<string, ItemReport>
  {
    reports[item.itemId := ItemTransition(Lookup(reports, item.itemId), item)]
  }

  /** The item-reports collection after the lines' transactions, committed in list order. */
  function ApplyItems(reports: map<string, ItemReport>, items: seq<LineItem>): map<string, ItemReport>
  {
    if |items| == 0 then reports
    else ApplyItem(ApplyItems(reports, items[..|items| - 1]), items[|items| - 1])
  }

  function Sold0(reports: map<string, ItemReport>, id: string): int
  {
    if id in reports then reports[id].totalSoldAllTime else 0
  }

  function Revenue0(reports: map<string, ItemReport>, id: string): int
  {
    if id in reports then reports[id].totalRevenueAllTime else 0
  }

  /** Every report is stored under its own item id. */
  predicate ItemReportsKeyed(reports: map<string, ItemReport>)
  {
    forall k :: k in reports ==> reports[k].itemId == k
  }

  /**
   One line's transaction: its item's totals grow by the line's quantity and
   `price * quantity`, its id becomes a key, and every other report is left as it was.
   */
  lemma ApplyItemEffect(reports: map<string, ItemReport>, x: LineItem)
    ensures ApplyItem(reports, x).Keys == reports.Keys + {x.itemId}
    ensures forall k :: Sold0(ApplyItem(reports, x), k) ==
                        Sold0(reports, k) + (if k == x.itemId then x.quantity else 0)
    ensures forall k :: Revenue0(ApplyItem(reports, x), k) ==
                        Revenue0(reports, k) + (if k == x.itemId then x.price * x.quantity else 0)
    ensures forall k :: k in reports && k != x.itemId ==> ApplyItem(reports, x)[k] == reports[k]
    ensures ItemReportsKeyed(reports) ==> ItemReportsKeyed(ApplyItem(reports, x))
  {
  }

  /**
   Every line is applied once, duplicates included: each item's totals grow by
   the sums over its lines, the order's ids become keys, and every other report
   is left as it was.
   */
  lemma {:induction false} ApplyItemsTotals(reports: map<string, ItemReport>, items: seq<LineItem>)
    ensures ApplyItems(reports, items).Keys == reports.Keys + Ids(items)
    ensures forall k :: Sold0(ApplyItems(reports, items), k) == Sold0(reports, k) + SumQuantity(items, k)
    ensures forall k :: Revenue0(ApplyItems(reports, items), k) == Revenue0(reports, k) + SumRevenue(items, k)
    ensures forall k :: k in reports && k !in Ids(items) ==> ApplyItems(reports, items)[k] == reports[k]
    ensures ItemReportsKeyed(reports) ==> ItemReportsKeyed(ApplyItems(reports, items))
  {
    if |items| > 0 {
      var init := items[..|items| - 1];
      ApplyItemsTotals(reports, init);
      ApplyItemEffect(ApplyItems(reports, init), items[|items| - 1]);
    }
  }

  /** With no negative quantity or price, no item's totals ever go down. */
  lemma {:induction false} ItemTotalsNeverDecrease(reports: map<string, ItemReport>, items: seq<LineItem>, k: string)
    requires forall i :: 0 <= i < |items| ==> items[i].quantity >= 0 && items[i].price >= 0
    ensures Sold0(ApplyItems(reports, items), k) >= Sold0(reports, k)
    ensures Revenue0(ApplyItems(reports, items), k) >= Revenue0(reports, k)
  {
    if |items| > 0 {
      var init := items[..|items| - 1];
      ItemTotalsNeverDecrease(reports, init, k);
      var last := items[|items| - 1];
      assert last.price * last.quantity >= 0;
    }
  }

  /** Two lines' transactions give the same reports whichever commits first. */
  lemma ItemTransitionsCommute(reports: map<string, ItemReport>, a: LineItem, b: LineItem)
    ensures ApplyItem(ApplyItem(reports, a), b) == ApplyItem(ApplyItem(reports, b), a)
  {
  }

  lemma {:induction false} ApplyItemsAppend(reports: map<string, ItemReport>, a: seq<LineItem>, b: seq<LineItem>)
    ensures ApplyItems(reports, a + b) == ApplyItems(ApplyItems(reports, a), b)
  {
    if |b| > 0 {
      assert (a + b)[..|a + b| - 1] == a + b[..|b| - 1];
      ApplyItemsAppend(reports, a, b[..|b| - 1]);
    } else {
      assert a + b == a;
    }
  }

  lemma {:induction false} ApplyItemCommutesPast(reports: map<string, ItemReport>, x: LineItem, ys: seq<LineItem>)
    ensures ApplyItems(ApplyItem(reports, x), ys) == ApplyItem(ApplyItems(reports, ys), x)
  {
    if |ys| > 0 {
      var init, y := ys[..|ys| - 1], ys[|ys| - 1];
      ApplyItemCommutesPast(reports, x, init);
      ItemTransitionsCommute(ApplyItems(reports, init), x, y);
    }
  }

  /** Removing one occurrence of the last element of `xs` from `ys` keeps the two lists permutations of each other. */
  lemma RemoveMatching(xs: seq<LineItem>, ys: seq<LineItem>, k: nat)
    requires multiset(xs) == multiset(ys) && 0 < |xs| && k < |ys| && ys[k] == xs[|xs| - 1]
    ensures multiset(xs[..|xs| - 1]) == multiset(ys[..k] + ys[k + 1..])
  {
    var init, x := xs[..|xs| - 1], xs[|xs| - 1];
    assert xs == init + [x];
    assert ys == ys[..k] + [x] + ys[k + 1..];
    assert multiset(init) == multiset(xs) - multiset{x};
    assert multiset(ys[..k] + ys[k + 1..]) == multiset(ys) - multiset{x};
  }

  /** A line in the middle has the same effect as the same line committed last. */
  lemma ApplyItemsMovedLast(reports: map<string, ItemReport>, before: seq<LineItem>, x: LineItem, after: seq<LineItem>)
    ensures ApplyItems(reports, before + [x] + after) == ApplyItem(ApplyItems(reports, before + after), x)
  {
    calc {
      ApplyItems(reports, before + [x] + after);
      { ApplyItemsAppend(reports, before + [x], after); }
      ApplyItems(ApplyItems(reports, before + [x]), after);
      { assert (before + [x])[..|before + [x]| - 1] == before; }
      ApplyItems(ApplyItem(ApplyItems(reports, before), x), after);
      { ApplyItemCommutesPast(ApplyItems(reports, before), x, after); }
      ApplyItem(ApplyItems(ApplyItems(reports, before), after), x);
      { ApplyItemsAppend(reports, before, after); }
      ApplyItem(ApplyItems(reports, before + after), x);
    }
  }

  /**
   The item reports do not depend on the order in which the lines' transactions
   commit: any rearrangement of the lines gives the same collection.
   */
  lemma {:induction false} ItemReportsOrderIndependent(reports: map<string, ItemReport>, xs: seq<LineItem>, ys: seq<LineItem>)
    requires multiset(xs) == multiset(ys)
    ensures ApplyItems(reports, xs) == ApplyItems(reports, ys)
    decreases |xs|
  {
    if |xs| == 0 {
      assert |ys| == |multiset(ys)| == 0;
    } else {
      var x := xs[|xs| - 1];
      assert x in multiset(ys);
      var k :| 0 <= k < |ys| && ys[k] == x;
      RemoveMatching(xs, ys, k);
      ItemReportsOrderIndependent(reports, xs[..|xs| - 1], ys[..k] + ys[k + 1..]);
      assert ys == ys[..k] + [x] + ys[k + 1..];
      ApplyItemsMovedLast(reports, ys[..k], x, ys[k + 1..]);
    }
  }
}
