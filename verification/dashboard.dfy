/** The dashboard's figures over the loaded orders: totals, today's orders,
    distinct customers, the recent-activity list with its relative times,
    and the rows of the printable report. */
module Dashboard {
  import opened Basics
  import opened Listing
  import opened Orders

  const MinuteMs: nat := 60 * 1000
  const HourMs: nat := 60 * MinuteMs
  const DayMs: nat := 24 * HourMs

  /** The local calendar day of a timestamp, for a fixed offset of local
      time from UTC in milliseconds. Dafny's division rounds down for a
      positive divisor, so instants before the epoch fall on earlier days. */
  function LocalDay(t: int, offset: int): int {
    (t + offset) / DayMs
  }

  /** `orderDate.toDateString() === today.toDateString()`. */
  predicate SameDay(t: int, now: int, offset: int) {
    LocalDay(t, offset) == LocalDay(now, offset)
  }

  /** Two instants fall on the same local day exactly when the first lies
      in the day-long window that starts at local midnight of the second. */
  lemma SameDayIffWithinDay(t: int, now: int, offset: int)
    ensures SameDay(t, now, offset) <==>
              LocalDay(now, offset) * DayMs <= t + offset < LocalDay(now, offset) * DayMs + DayMs
  {
    var d := LocalDay(now, offset);
    if d * DayMs <= t + offset < d * DayMs + DayMs {
      DivInWindow(t + offset, d);
    }
  }

  lemma DivInWindow(x: int, d: int)
    requires d * DayMs <= x < d * DayMs + DayMs
    ensures x / DayMs == d
  {
    FloorBelow(x, DayMs, d + 1);
    FloorBelow(x, DayMs, d);
  }

  /** The figures of the four stat cards. */
  datatype Stats = Stats(totalOrders: nat, todayOrders: nat, totalRevenue: int, activeCustomers: nat)

  /** The orders placed on the current local day. */
  function TodayOrders(orders: seq<Order>, now: int, offset: int): (n: nat)
    ensures n == |Filter(orders, (o: Order) => SameDay(o.createdAt, now, offset))|
    ensures n <= |orders|
  {
    CountIsFilterLength(orders, (o: Order) => SameDay(o.createdAt, now, offset));
    CountWhere(orders, (o: Order) => SameDay(o.createdAt, now, offset))
  }

  /** `new Set(orders.map(order => order.user).filter(user => user))`. */
  function Customers(orders: seq<Order>): (r: set<Json>)
    ensures forall u :: u in r <==> Truthy(u) && exists i :: 0 <= i < |orders| && orders[i].user == u
    ensures |r| <= |orders|
  {
    if |orders| == 0 then {}
    else
      var rest := Customers(orders[1..]);
      assert forall i :: 1 <= i < |orders| ==> orders[i] == orders[1..][i - 1];
      assert forall i :: 0 <= i < |orders[1..]| ==> orders[1..][i] == orders[i + 1];
      if Truthy(orders[0].user) then rest + {orders[0].user} else rest
  }

  /** Repeat orders by one customer do not add customers. */
  lemma RepeatCustomerNotCounted(orders: seq<Order>, o: Order)
    requires exists i :: 0 <= i < |orders| && orders[i].user == o.user
    ensures Customers(orders + [o]) == Customers(orders)
  {
    var all := orders + [o];
    assert forall i :: 0 <= i < |orders| ==> all[i] == orders[i];
    assert all[|orders|] == o;
  }

  function Summarize(orders: seq<Order>, now: int, offset: int): (s: Stats)
    ensures s.totalOrders == |orders|
    ensures s.todayOrders <= s.totalOrders
    ensures s.todayOrders == |Filter(orders, (o: Order) => SameDay(o.createdAt, now, offset))|
    ensures s.totalRevenue == SumOf(Filter(orders, HasTotal), Amount)
    ensures s.activeCustomers <= s.totalOrders
    ensures s.activeCustomers == |Customers(orders)|
  {
    RevenueOfTotalled(orders);
    Stats(|orders|, TodayOrders(orders, now, offset), Revenue(orders), |Customers(orders)|)
  }

  /** The relative time shown beside a recent order. */
  datatype TimeAgo = Minutes(m: int) | Hours(h: int) | Days(d: int)

  /** Minutes while under an hour, else hours while under a day, else days;
      each count rounded down. */
  function Ago(elapsed: int): (r: TimeAgo)
    ensures r.Minutes? <==> elapsed / MinuteMs < 60
    ensures r.Hours? <==> elapsed / MinuteMs >= 60 && elapsed / HourMs < 24
    ensures r.Days? <==> elapsed / HourMs >= 24
    ensures r.Minutes? ==> r.m == elapsed / MinuteMs
    ensures r.Hours? ==> r.h == elapsed / HourMs
    ensures r.Days? ==> r.d == elapsed / DayMs
  {
    var minutes := elapsed / MinuteMs;
    var hours := elapsed / HourMs;
    if minutes < 60 then Minutes(minutes)
    else if hours < 24 then Hours(hours)
    else Days(elapsed / DayMs)
  }

  /** The buckets split the elapsed time at one hour and one day, and an
      order from the future shows as minutes. */
  lemma AgoBuckets(elapsed: int)
    ensures Ago(elapsed).Minutes? <==> elapsed < HourMs
    ensures Ago(elapsed).Hours? <==> HourMs <= elapsed < DayMs
    ensures Ago(elapsed).Days? <==> DayMs <= elapsed
    ensures Ago(elapsed).Hours? ==> 1 <= Ago(elapsed).h < 24
    ensures Ago(elapsed).Days? ==> 1 <= Ago(elapsed).d
  {
    FloorBelow(elapsed, MinuteMs, 60);
    FloorBelow(elapsed, HourMs, 24);
    FloorBelow(elapsed, DayMs, 1);
    FloorBelow(elapsed, HourMs, 1);
  }

  /** Rounding down stays below a bound exactly when the value does. */
  lemma FloorBelow(x: int, unit: nat, bound: int)
    requires unit > 0
    ensures x / unit < bound <==> x < bound * unit
  {
    var q := x / unit;
    assert x == q * unit + x % unit && 0 <= x % unit < unit;
    if q < bound {
      assert (q + 1) * unit <= bound * unit by {
        MulMonotone(q + 1, bound, unit);
      }
    } else {
      assert bound * unit <= q * unit by {
        MulMonotone(bound, q, unit);
      }
    }
  }

  lemma MulMonotone(a: int, b: int, c: nat)
    requires a <= b
    ensures a * c <= b * c
  {
  }

  /** The recent-activity list: the first five loaded orders. */
  function Recent(orders: seq<Order>): (r: seq<Order>)
    ensures |r| <= 5 && (|orders| >= 5 ==> |r| == 5) && (|orders| < 5 ==> r == orders)
    ensures forall i :: 0 <= i < |r| ==> r[i] == orders[i]
  {
    Take(orders, 5)
  }

  /** The printable report: the first ten loaded orders. */
  function ReportRows(orders: seq<Order>): (r: seq<Order>)
    ensures |r| <= 10 && (|orders| >= 10 ==> |r| == 10) && (|orders| < 10 ==> r == orders)
    ensures forall i :: 0 <= i < |r| ==> r[i] == orders[i]
  {
    Take(orders, 10)
  }

  /** The recent list is the head of the report. */
  lemma RecentHeadsReport(orders: seq<Order>)
    ensures Recent(orders) == Take(ReportRows(orders), 5)
  {
  }
}
