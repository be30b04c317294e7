/** Month arithmetic, the calendar, and the provisioning of monthly partitions. */
module Partitions {
  datatype Month = Month(year: int, month: int) {
    predicate Valid() {
      year >= 1 && 1 <= month <= 12
    }
  }

  // ---- month arithmetic ----

  /** A running count of months. */
  function Index(m: Month): int {
    12 * m.year + (m.month - 1)
  }

  /** `_month_offset`; Python's `//` and `%` floor, as `/` and `%` do here for a divisor of 12. */
  function MonthOffset(m: Month, offset: int): Month {
    var total := m.year * 12 + (m.month - 1) + offset;
    Month(total / 12, total % 12 + 1)
  }

  /** Moving by an offset moves the running index by that much, to a real month; offsets compose. */
  lemma MonthOffsetLaws(m: Month, a: int, b: int)
    ensures Index(MonthOffset(m, a)) == Index(m) + a
    ensures 1 <= MonthOffset(m, a).month <= 12
    ensures MonthOffset(MonthOffset(m, a), b) == MonthOffset(m, a + b)
  {
  }

  /** Months and indices correspond one to one. */
  lemma IndexInjective(m: Month, n: Month)
    requires m.Valid() && n.Valid() && Index(m) == Index(n)
    ensures m == n
  {
  }

  // ---- the calendar ----

  predicate Leap(year: int) {
    year % 4 == 0 && (year % 100 != 0 || year % 400 == 0)
  }

  function DaysIn(m: Month): nat {
    match m.month
    case 2 => if Leap(m.year) then 29 else 28
    case 4 => 30
    case 6 => 30
    case 9 => 30
    case 11 => 30
    case _ => 31
  }

  const FIRST_INDEX := 12 // January of year 1

  function AtIndex(k: int): Month {
    Month(k / 12, k % 12 + 1)
  }

  /** Days from 1 January of year 1 to the first of the month with index `k`. */
  function FirstDay(k: int): nat
    requires k >= FIRST_INDEX
  {
    if k == FIRST_INDEX then 0 else FirstDay(k - 1) + DaysIn(AtIndex(k - 1))
  }

  /** The months add up to the usual count of the days before a year. */
  lemma {:induction false} DaysBeforeYear(year: int)
    requires year >= 1
    ensures var y := year - 1; FirstDay(12 * year) == 365 * y + y / 4 - y / 100 + y / 400
    decreases year
  {
    if year > 1 {
      DaysBeforeYear(year - 1);
      YearLength(year - 1);
      LeapCount(year - 1);
    }
  }

  lemma YearLength(year: int)
    requires year >= 1
    ensures FirstDay(12 * year + 12) == FirstDay(12 * year) + (if Leap(year) then 366 else 365)
  {
    hide FirstDay;
    Quarter(year, 0);
    Quarter(year, 1);
    Quarter(year, 2);
    Quarter(year, 3);
  }

  lemma Quarter(year: int, q: nat)
    requires year >= 1 && q < 4
    ensures FirstDay(12 * year + 3 * q + 3)
         == FirstDay(12 * year + 3 * q)
          + DaysIn(Month(year, 3 * q + 1)) + DaysIn(Month(year, 3 * q + 2)) + DaysIn(Month(year, 3 * q + 3))
  {
    hide DaysIn;
    var k := 12 * year + 3 * q;
    assert AtIndex(k) == Month(year, 3 * q + 1);
    assert AtIndex(k + 1) == Month(year, 3 * q + 2);
    assert AtIndex(k + 2) == Month(year, 3 * q + 3);
    assert FirstDay(k + 1) == FirstDay(k) + DaysIn(AtIndex(k));
    assert FirstDay(k + 2) == FirstDay(k + 1) + DaysIn(AtIndex(k + 1));
  }

  lemma LeapCount(y: int)
    requires y >= 1
    ensures y / 4 - (y - 1) / 4 == (if y % 4 == 0 then 1 else 0)
    ensures y / 100 - (y - 1) / 100 == (if y % 100 == 0 then 1 else 0)
    ensures y / 400 - (y - 1) / 400 == (if y % 400 == 0 then 1 else 0)
    ensures y % 400 == 0 ==> y % 100 == 0
    ensures y % 100 == 0 ==> y % 4 == 0
  {
  }

  /** The Gregorian day number of the first of a month, counted from 1 January of year 1, in closed form. */
  function DayNumber(year: int, month: int): int {
    var y := year - 1;
    var leap := year % 4 == 0 && (year % 100 != 0 || year % 400 == 0);
    365 * y + y / 4 - y / 100 + y / 400
    + (367 * month - 362) / 12 - (if month <= 2 then 0 else if leap then 1 else 2)
  }

  /** Adding up month lengths gives the closed form for every month. */
  lemma {:induction false} FirstOfMonth(year: int, month: int)
    requires year >= 1 && 1 <= month <= 12
    ensures FirstDay(12 * year + month - 1) == DayNumber(year, month)
    decreases month
  {
    if month == 1 {
      DaysBeforeYear(year);
    } else {
      FirstOfMonth(year, month - 1);
      assert AtIndex(12 * year + month - 2) == Month(year, month - 1);
      assert FirstDay(12 * year + month - 1) == FirstDay(12 * year + month - 2) + DaysIn(Month(year, month - 1));
      hide FirstDay;
      MonthLength(year, month - 1);
    }
  }

  lemma MonthLength(year: int, month: int)
    requires 1 <= month < 12
    ensures DayNumber(year, month + 1) - DayNumber(year, month) == DaysIn(Month(year, month))
  {
    match month
    case 1 => case 2 => case 3 => case 4 => case 5 => case 6 =>
    case 7 => case 8 => case 9 => case 10 => case 11 =>
  }

  lemma {:induction false} FirstDayGrows(j: int, k: int)
    requires FIRST_INDEX <= j <= k
    ensures FirstDay(k) >= FirstDay(j) + 28 * (k - j)
    decreases k - j
  {
    if j < k {
      FirstDayGrows(j, k - 1);
    }
  }

  // The month of a day, searched from month `k` on.
  function MonthFrom(day: nat, k: int): (r: int)
    requires k >= FIRST_INDEX && FirstDay(k) <= day
    ensures r >= k && FirstDay(r) <= day < FirstDay(r + 1)
    decreases day - FirstDay(k)
  {
    if day < FirstDay(k + 1) then k else MonthFrom(day, k + 1)
  }

  function MonthOfDay(day: nat): int {
    MonthFrom(day, FIRST_INDEX)
  }

  const DAY: nat := 86400

  /** The month of an instant, in seconds since the start of year 1. */
  function MonthAt(t: nat): int {
    MonthOfDay(t / DAY)
  }

  // An instant lies in month `k`.
  predicate InMonth(t: nat, k: int) {
    k >= FIRST_INDEX && FirstDay(k) * DAY <= t < FirstDay(k + 1) * DAY
  }

  /** Month ranges meet end to end and never overlap: an instant lies in exactly one. */
  lemma ExactlyOneMonth(t: nat, k: int)
    ensures InMonth(t, k) <==> k == MonthAt(t)
  {
    var d, m := t / DAY, MonthAt(t);
    assert FirstDay(m) <= d < FirstDay(m + 1);
    if InMonth(t, k) {
      if k < m {
        FirstDayGrows(k + 1, m);
      } else if m < k {
        FirstDayGrows(m + 1, k);
      }
    }
  }

  lemma MonthAtMonotone(s: nat, t: nat)
    requires s <= t
    ensures MonthAt(s) <= MonthAt(t)
  {
    var j, k := MonthAt(s), MonthAt(t);
    if k < j {
      FirstDayGrows(k + 1, j);
    }
  }

  // ---- partitions ----

  /** A partition holds the days from `start` up to, not including, `end`. */
  datatype Partition = Partition(start: nat, end: nat) {
    predicate Holds(t: nat) {
      start * DAY <= t < end * DAY
    }
  }

  /** The partition that belongs to a month. */
  function PartitionOf(m: Month): Partition
    requires m.Valid()
  {
    Partition(FirstDay(Index(m)), FirstDay(Index(m) + 1))
  }

  // The first of the month after `m`: `partition_start + INTERVAL '1 month'`.
  function NextMonth(m: Month): (n: Month)
    requires m.Valid()
    ensures n.Valid() && Index(n) == Index(m) + 1
  {
    if m.month == 12 then Month(m.year + 1, 1) else Month(m.year, m.month + 1)
  }

  // Some run provided the month with index `k`.
  ghost predicate Provided(runs: seq<nat>, k: int) {
    exists i :: 0 <= i < |runs| && MonthAt(runs[i]) <= k <= MonthAt(runs[i]) + 2
  }

  /** `usage_events` and `partition_log`, by the year and month in the partition's name. */
  class UsageTable {
    var partitions: map<Month, Partition>
    var log: map<Month, Partition>
    ghost var runs: seq<nat>

    constructor ()
      ensures Proper() && partitions == map[] && runs == []
    {
      partitions, log, runs := map[], map[], [];
    }

    /** Every partition covers exactly the month it is named after; what runs provided is there. */
    ghost predicate Proper()
      reads this
    {
      && partitions == log
      && (forall m :: m in partitions ==> m.Valid() && partitions[m] == PartitionOf(m))
      && (forall k :: Provided(runs, k) ==> AtIndex(k) in partitions)
    }

    /** Idempotent: the month's partition exists afterwards, and nothing else has changed. */
    method CreateMonthlyPartition(year: int, month: int)
      requires Proper() && Month(year, month).Valid()
      modifies this`partitions, this`log
      ensures Proper()
      ensures partitions == old(partitions)[Month(year, month) := PartitionOf(Month(year, month))]
      ensures log == partitions
      ensures partitions[Month(year, month)].start == DayNumber(year, month)
      ensures partitions[Month(year, month)].end == if month == 12 then DayNumber(year + 1, 1) else DayNumber(year, month + 1)
    {
      hide FirstDay, Provided, DayNumber;
      FirstOfMonth(year, month);
      if month == 12 {
        FirstOfMonth(year + 1, 1);
      } else {
        FirstOfMonth(year, month + 1);
      }
      var name := Month(year, month);
      var start := FirstDay(Index(name));
      var end := FirstDay(Index(NextMonth(name)));
      if name !in partitions {
        partitions := partitions[name := Partition(start, end)];
      }
      if name !in log {
        log := log[name := Partition(start, end)];
      }
    }

    /** The month of `now` and the two after it get their partitions. */
    method EnsurePartitionsExist(now: Month) returns (months: seq<Month>)
      requires Proper() && now.Valid()
      modifies this`partitions, this`log
      ensures Proper()
      ensures months == [now, MonthOffset(now, 1), MonthOffset(now, 2)]
      ensures partitions.Keys == old(partitions).Keys + {now, MonthOffset(now, 1), MonthOffset(now, 2)}
    {
      hide FirstDay, Provided, Proper, PartitionOf, AtIndex, MonthOffset;
      ThreeMonths(now);
      months := [MonthOffset(now, 0), MonthOffset(now, 1), MonthOffset(now, 2)];
      ghost var done: set<Month> := {};
      for i := 0 to 3
        invariant Proper()
        invariant partitions.Keys == old(partitions).Keys + done
        invariant done == set k | 0 <= k < i :: months[k]
      {
        CreateMonthlyPartition(months[i].year, months[i].month);
        done := done + {months[i]};
      }
      assert done == {months[0], months[1], months[2]};
    }

    /** One successful run of the service at the instant `t`. */
    method RunOnce(t: nat)
      requires Proper()
      modifies this
      ensures Proper() && runs == old(runs) + [t]
    {
      MonthAtIsReal(t);
      var now := AtIndex(MonthAt(t));
      hide MonthAt, AtIndex, FirstDay;
      var months := EnsurePartitionsExist(now);
      forall k | Provided(runs + [t], k) && !Provided(runs, k)
        ensures AtIndex(k) in partitions
      {
        NewlyProvided(runs, t, k);
      }
      hide Provided;
      runs := runs + [t];
    }
  }

  lemma ThreeMonths(now: Month)
    requires now.Valid()
    ensures MonthOffset(now, 0) == now && MonthOffset(now, 1).Valid() && MonthOffset(now, 2).Valid()
  {
  }

  // What a run adds.
  lemma NewlyProvided(runs: seq<nat>, t: nat, k: int)
    requires Provided(runs + [t], k) && !Provided(runs, k)
    ensures var now := AtIndex(MonthAt(t)); AtIndex(k) in {now, MonthOffset(now, 1), MonthOffset(now, 2)}
  {
    hide MonthAt, AtIndex;
    var all := runs + [t];
    assert forall j :: 0 <= j < |runs| ==> all[j] == runs[j];
    var i :| 0 <= i < |all| && MonthAt(all[i]) <= k <= MonthAt(all[i]) + 2;
    OffsetOfIndex(MonthAt(t), k);
  }

  lemma OffsetOfIndex(j: int, k: int)
    requires j <= k <= j + 2
    ensures var now := AtIndex(j); AtIndex(k) in {now, MonthOffset(now, 1), MonthOffset(now, 2)}
  {
    OffsetIs(j, 0);
    OffsetIs(j, 1);
    OffsetIs(j, 2);
    hide AtIndex, MonthOffset;
  }

  lemma OffsetIs(j: int, a: int)
    ensures MonthOffset(AtIndex(j), a) == AtIndex(j + a)
  {
    var m := AtIndex(j);
    assert m.year * 12 + (m.month - 1) == j;
  }

  lemma MonthAtIsReal(t: nat)
    ensures MonthAt(t) >= FIRST_INDEX && AtIndex(MonthAt(t)).Valid() && Index(AtIndex(MonthAt(t))) == MonthAt(t)
  {
    hide FirstDay;
  }

  // ---- coverage over whole runs ----

  /** A run at `t` provides for a later instant exactly when that lies at most two months ahead. */
  lemma CoveredIff(t: nat, x: nat)
    requires t <= x
    ensures Provided([t], MonthAt(x)) <==> MonthAt(x) - MonthAt(t) <= 2
  {
    hide MonthAt;
    MonthAtMonotone(t, x);
    if MonthAt(x) - MonthAt(t) <= 2 {
      assert MonthAt([t][0]) <= MonthAt(x) <= MonthAt([t][0]) + 2;
    }
  }

  /** 59 days after any instant are still within the next two months. */
  lemma FiftyNineDays(t: nat, x: nat)
    requires t <= x <= t + 59 * DAY
    ensures MonthAt(x) - MonthAt(t) <= 2
  {
    var m, k := MonthAt(t), MonthAt(x);
    ExactlyOneMonth(t, m);
    ExactlyOneMonth(x, k);
    TwoMonthsLast(m + 1);
    if k > m + 2 {
      FirstDayGrows(m + 3, k);
    }
  }

  // Two months in a row are never shorter than 59 days.
  lemma TwoMonthsLast(k: int)
    requires k >= FIRST_INDEX
    ensures FirstDay(k + 2) >= FirstDay(k) + 59
  {
    assert FirstDay(k + 2) == FirstDay(k + 1) + DaysIn(AtIndex(k + 1));
    if AtIndex(k).month == 2 {
      assert AtIndex(k + 1).month == 3;
    } else if AtIndex(k + 1).month == 2 {
      assert AtIndex(k).month == 1;
    }
  }

  /** `runs` are in order and never more than 59 days apart. */
  ghost predicate Regular(runs: seq<nat>) {
    forall j :: 0 <= j < |runs| - 1 ==> runs[j] <= runs[j + 1] <= runs[j] + 59 * DAY
  }

  /** Every instant since the first run, up to 59 days after the last, was provided for by a run before it. */
  lemma AlwaysProvided(runs: seq<nat>, x: nat) returns (i: nat)
    requires runs != [] && Regular(runs) && runs[0] <= x <= runs[|runs| - 1] + 59 * DAY
    ensures i < |runs| && runs[i] <= x && MonthAt(runs[i]) <= MonthAt(x) <= MonthAt(runs[i]) + 2
  {
    hide MonthAt;
    i := 0;
    while i + 1 < |runs| && runs[i + 1] <= x
      invariant i < |runs| && runs[i] <= x
    {
      i := i + 1;
    }
    FiftyNineDays(runs[i], x);
    MonthAtMonotone(runs[i], x);
  }

  /**
   * With regular runs every instant since the first run lies in exactly one existing partition,
   * and that partition is there as soon as the instant comes.
   */
  lemma InExactlyOnePartition(table: UsageTable, x: nat)
    requires table.Proper() && table.runs != [] && Regular(table.runs)
    requires table.runs[0] <= x <= table.runs[|table.runs| - 1] + 59 * DAY
    ensures exists m :: m in table.partitions && table.partitions[m].Holds(x)
    ensures forall m, n :: m in table.partitions && table.partitions[m].Holds(x)
                && n in table.partitions && table.partitions[n].Holds(x)
              ==> m == n
  {
    hide FirstDay;
    var i := AlwaysProvided(table.runs, x);
    var k := MonthAt(x);
    assert Provided(table.runs, k);
    MonthAtIsReal(x);
    ExactlyOneMonth(x, k);
    assert table.partitions[AtIndex(k)] == PartitionOf(AtIndex(k));
    assert table.partitions[AtIndex(k)].Holds(x);
    forall m | m in table.partitions && table.partitions[m].Holds(x)
      ensures m == AtIndex(k)
    {
      assert table.partitions[m] == PartitionOf(m);
      ExactlyOneMonth(x, Index(m));
      IndexInjective(m, AtIndex(k));
    }
  }

  /** The bound is sharp: 59 days and a second after the last second of a year the partition may be missing. */
  lemma SixtiethDayMayBeMissing(year: int)
    requires year >= 1 && !Leap(year + 1)
    ensures var t := FirstDay(12 * (year + 1)) * DAY - 1;
            t >= 0 && !Provided([t], MonthAt(t + 59 * DAY + 1))
  {
    hide FirstDay, MonthAt, DaysIn;
    var k := 12 * (year + 1);
    JanuaryAndFebruary(year + 1);
    FirstDayGrows(FIRST_INDEX, k);
    FirstDayGrows(k - 1, k);
    FirstDayGrows(k + 2, k + 3);
    var x := FirstDay(k) * DAY - 1 + 59 * DAY + 1;
    var t: nat := FirstDay(k) * DAY - 1;
    ExactlyOneMonth(t, k - 1);
    ExactlyOneMonth(x, k + 2);
    CoveredIff(t, x);
  }

  lemma JanuaryAndFebruary(year: int)
    requires year >= 1 && !Leap(year)
    ensures FirstDay(12 * year + 2) == FirstDay(12 * year) + 59
  {
    var k := 12 * year;
    assert AtIndex(k) == Month(year, 1) && AtIndex(k + 1) == Month(year, 2);
    assert FirstDay(k + 2) == FirstDay(k + 1) + DaysIn(AtIndex(k + 1));
  }
}
