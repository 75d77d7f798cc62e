/**
 * getSalesChart: pick a bucket size from the length of the date range, sum
 * the completed sales of the window per bucket, then walk the calendar from
 * the start date to the end date emitting one point per bucket, with 0 for
 * buckets that had no sales.
 */
module SalesChart {
  import opened Seqs
  import opened Calendar
  import opened Schema
  import opened Text
  import StatsService

  const HOUR_MS: int := 3600000
  const DAY_MS: int := 86400000

  datatype Granularity = Hour | Day | Month

  /** The walk's `current` Date: a calendar day and an hour, with zero minutes, seconds and milliseconds. */
  datatype Cursor = Cursor(date: Date, hour: int)

  predicate ValidCursor(c: Cursor) {
    WellFormed(c.date) && 0 <= c.hour < 24
  }

  /** Milliseconds since 0001-01-01 00:00 local time, as getTime() orders them. */
  function Millis(c: Cursor): int {
    Ord(c.date) * DAY_MS + c.hour * HOUR_MS
  }

  /** new Date(sy, sm - 1, sd, 0, 0, 0, 0) */
  function StartMillis(startDate: Date): int {
    Millis(Cursor(startDate, 0))
  }

  /** new Date(ey, em - 1, ed, 23, 59, 59, 999) */
  function EndMillis(endDate: Date): int {
    Ord(endDate) * DAY_MS + 23 * HOUR_MS + 59 * 60000 + 59 * 1000 + 999
  }

  function Abs(x: int): nat {
    if x < 0 then -x else x
  }

  /** Math.ceil(a / b) for a >= 0 and b > 0. */
  function CeilDiv(a: nat, b: nat): nat
    requires b > 0
  {
    (a + b - 1) / b
  }

  /** Math.ceil(Math.abs(end - start) / (1000 * 60 * 60 * 24)) */
  function DiffDays(startDate: Date, endDate: Date): nat {
    CeilDiv(Abs(EndMillis(endDate) - StartMillis(startDate)), DAY_MS)
  }

  /**
   * Because the end is the last millisecond of the end date, diffDays counts
   * the calendar days of the range, both ends included. Reversed dates give
   * the distance between them instead.
   */
  lemma DiffDaysCountsDays(startDate: Date, endDate: Date)
    ensures Ord(startDate) <= Ord(endDate) ==> DiffDays(startDate, endDate) == Ord(endDate) - Ord(startDate) + 1
    ensures Ord(endDate) < Ord(startDate) ==> DiffDays(startDate, endDate) == Ord(startDate) - Ord(endDate)
  {
    var n := Ord(endDate) - Ord(startDate);
    if n >= 0 {
      assert Abs(EndMillis(endDate) - StartMillis(startDate)) + DAY_MS - 1 == (n + 1) * DAY_MS + (DAY_MS - 2);
      DivideExactly(n + 1, DAY_MS - 2);
    } else {
      assert Abs(EndMillis(endDate) - StartMillis(startDate)) + DAY_MS - 1 == (-n - 1) * DAY_MS + DAY_MS;
      assert (-n - 1) * DAY_MS + DAY_MS == -n * DAY_MS;
      DivideExactly(-n, 0);
    }
  }

  lemma DivideExactly(q: int, r: int)
    requires 0 <= r < DAY_MS
    ensures (q * DAY_MS + r) / DAY_MS == q
  {
  }

  /** diffDays <= 2: hourly; diffDays <= 90: daily; otherwise monthly. */
  function GranularityOf(startDate: Date, endDate: Date): Granularity {
    var days := DiffDays(startDate, endDate);
    if days <= 2 then Hour else if days <= 90 then Day else Month
  }

  /** A range of one or two calendar days is hourly, of 3 to 90 days daily, of 91 or more monthly. */
  lemma GranularityByLength(startDate: Date, endDate: Date)
    requires Ord(startDate) <= Ord(endDate)
    ensures var days := Ord(endDate) - Ord(startDate) + 1;
      && (GranularityOf(startDate, endDate) == Hour <==> days <= 2)
      && (GranularityOf(startDate, endDate) == Day <==> 3 <= days <= 90)
      && (GranularityOf(startDate, endDate) == Month <==> 91 <= days)
  {
    DiffDaysCountsDays(startDate, endDate);
  }

  /** The walk's step: setHours(h + 1), setDate(d + 1), or setMonth(m + 1) followed by setDate(1). */
  function Step(g: Granularity, c: Cursor): (r: Cursor)
    requires ValidCursor(c)
    ensures ValidCursor(r) && Millis(c) < Millis(r)
  {
    match g
    case Hour => if c.hour + 1 < 24 then Cursor(c.date, c.hour + 1) else Cursor(NextDay(c.date), 0)
    case Day => Cursor(NextDay(c.date), c.hour)
    case Month =>
      MonthStepAdvance(c.date);
      Cursor(MonthStep(c.date), c.hour)
  }

  /** The first day of the month reached after `i` monthly steps from `startDate`. */
  function MonthCursor(startDate: Date, i: nat): (r: Date)
    requires WellFormed(startDate)
    ensures WellFormed(r)
  {
    if i == 0 then startDate else MonthStep(MonthCursor(startDate, i - 1))
  }

  /** Where the walk stands after `i` steps, in closed form for hours and days. */
  function CursorAt(g: Granularity, startDate: Date, i: nat): (r: Cursor)
    requires WellFormed(startDate)
    ensures ValidCursor(r)
  {
    match g
    case Hour => Cursor(AddDays(startDate, i / 24), i % 24)
    case Day => Cursor(AddDays(startDate, i), 0)
    case Month => Cursor(MonthCursor(startDate, i), 0)
  }

  lemma StepCursorAt(g: Granularity, startDate: Date, i: nat)
    requires WellFormed(startDate)
    ensures Step(g, CursorAt(g, startDate, i)) == CursorAt(g, startDate, i + 1)
  {
    match g
    case Hour =>
      if i % 24 == 23 {
        assert (i + 1) / 24 == i / 24 + 1;
        AddDaysSucc(startDate, i / 24);
      } else {
        assert (i + 1) / 24 == i / 24;
      }
    case Day =>
      AddDaysSucc(startDate, i);
    case Month =>
  }

  /** The loop guard `current <= end`: the cursor has not passed the end date. */
  lemma GuardByDay(c: Cursor, endDate: Date)
    requires ValidCursor(c)
    ensures Millis(c) <= EndMillis(endDate) <==> Ord(c.date) <= Ord(endDate)
  {
  }

  /** A bucket: the strftime group of a sale and the `key` the walk builds for a cursor. */
  datatype BucketKey = HourKey(date: Date, hour: int) | DayKey(date: Date) | MonthKey(year: int, month: int)

  function KeyOf(g: Granularity, c: Cursor): BucketKey {
    match g
    case Hour => HourKey(c.date, c.hour)
    case Day => DayKey(c.date)
    case Month => MonthKey(c.date.year, c.date.month)
  }

  /** `${y}-${m}-${d} ${h}`, `${y}-${m}-${d}` and `${y}-${m}`, which are also strftime's renderings for four-digit years. */
  function KeyText(k: BucketKey): string {
    match k
    case HourKey(d, h) => NatText(Nat(d.year)) + "-" + Pad2(Nat(d.month)) + "-" + Pad2(Nat(d.day)) + " " + Pad2(Nat(h))
    case DayKey(d) => NatText(Nat(d.year)) + "-" + Pad2(Nat(d.month)) + "-" + Pad2(Nat(d.day))
    case MonthKey(y, m) => NatText(Nat(y)) + "-" + Pad2(Nat(m))
  }

  function Nat(x: int): nat {
    if x < 0 then 0 else x
  }

  function MonthName(m: int): string {
    if 1 <= m <= 12 then ["Ene", "Feb", "Mar", "Abr", "May", "Jun", "Jul", "Ago", "Sep", "Oct", "Nov", "Dic"][m - 1]
    else ""
  }

  /** `${h}:00`, `${d}/${m}` and `${monthName} ${y}` */
  function Label(k: BucketKey): string {
    match k
    case HourKey(_, h) => Pad2(Nat(h)) + ":00"
    case DayKey(d) => Pad2(Nat(d.day)) + "/" + Pad2(Nat(d.month))
    case MonthKey(y, m) => MonthName(m) + " " + NatText(Nat(y))
  }

  /** One element of filledData. */
  datatype ChartPoint = ChartPoint(date: string, originalDate: string, total: real)

  function Counted(x: Sale, startDate: Date, endDate: Date): bool {
    StatsService.Selected(x, Completed, startDate, endDate)
  }

  function SaleKey(g: Granularity, x: Sale): BucketKey {
    KeyOf(g, Cursor(x.createdAt.date, x.createdAt.hour))
  }

  /** The query's rows: dateKey -> SUM(total_amount) over the completed sales of the window. */
  function ChartRows(sales: seq<Sale>, g: Granularity, startDate: Date, endDate: Date): map<string, real> {
    if sales == [] then map[]
    else
      var rows := ChartRows(sales[..|sales| - 1], g, startDate, endDate);
      var x := sales[|sales| - 1];
      if Counted(x, startDate, endDate) then
        var k := KeyText(SaleKey(g, x));
        rows[k := (if k in rows then rows[k] else 0.0) + x.totalAmount]
      else rows
  }

  /** `found ? found.total : 0` */
  function Fill(rows: map<string, real>, key: string): real {
    if key in rows then rows[key] else 0.0
  }

  function PointFor(rows: map<string, real>, k: BucketKey): ChartPoint {
    ChartPoint(Label(k), KeyText(k), Fill(rows, KeyText(k)))
  }

  /** Points 0 .. |points| - 1 are those of the walk's first cursors, all on or before the end date. */
  predicate WalkSoFar(points: seq<ChartPoint>, rows: map<string, real>, g: Granularity, startDate: Date, endDate: Date)
    requires WellFormed(startDate)
  {
    forall i {:trigger points[i]} :: 0 <= i < |points| ==>
      && points[i] == PointFor(rows, KeyOf(g, CursorAt(g, startDate, i)))
      && Ord(CursorAt(g, startDate, i).date) <= Ord(endDate)
  }

  /** Appending the point of the next cursor, when it is on or before the end date, extends the walk. */
  lemma WalkSoFarExtends(points: seq<ChartPoint>, rows: map<string, real>, g: Granularity, startDate: Date, endDate: Date)
    requires WellFormed(startDate) && WalkSoFar(points, rows, g, startDate, endDate)
    requires Ord(CursorAt(g, startDate, |points|).date) <= Ord(endDate)
    ensures WalkSoFar(points + [PointFor(rows, KeyOf(g, CursorAt(g, startDate, |points|)))], rows, g, startDate, endDate)
  {
    var p := PointFor(rows, KeyOf(g, CursorAt(g, startDate, |points|)));
    var next := points + [p];
    forall i | 0 <= i < |next|
      ensures next[i] == PointFor(rows, KeyOf(g, CursorAt(g, startDate, i)))
      ensures Ord(CursorAt(g, startDate, i).date) <= Ord(endDate)
    {
      if i < |points| {
        assert next[i] == points[i];
      } else {
        assert i == |points| && next[i] == p;
      }
    }
  }

  /** One turn of the loop: while the guard holds, the walk emits the current point and steps to the next cursor. */
  lemma WalkAdvances(points: seq<ChartPoint>, rows: map<string, real>, g: Granularity, startDate: Date, endDate: Date)
    requires WellFormed(startDate) && WalkSoFar(points, rows, g, startDate, endDate)
    requires Millis(CursorAt(g, startDate, |points|)) <= EndMillis(endDate)
    ensures WalkSoFar(points + [PointFor(rows, KeyOf(g, CursorAt(g, startDate, |points|)))], rows, g, startDate, endDate)
    ensures Step(g, CursorAt(g, startDate, |points|)) == CursorAt(g, startDate, |points| + 1)
  {
    GuardByDay(CursorAt(g, startDate, |points|), endDate);
    WalkSoFarExtends(points, rows, g, startDate, endDate);
    StepCursorAt(g, startDate, |points|);
  }

  /** Once the guard fails the walk is complete: its next cursor is past the end date, and a reversed range emits nothing. */
  lemma WalkStops(points: seq<ChartPoint>, rows: map<string, real>, g: Granularity, startDate: Date, endDate: Date)
    requires WellFormed(startDate) && WalkSoFar(points, rows, g, startDate, endDate)
    requires Millis(CursorAt(g, startDate, |points|)) > EndMillis(endDate)
    ensures Ord(CursorAt(g, startDate, |points|).date) > Ord(endDate)
    ensures Ord(endDate) < Ord(startDate) ==> points == []
  {
    GuardByDay(CursorAt(g, startDate, |points|), endDate);
    WalkStartsInRange(points, rows, g, startDate, endDate);
  }

  /** The walk starts at midnight of the start date. */
  lemma CursorAtStart(g: Granularity, startDate: Date)
    requires WellFormed(startDate)
    ensures CursorAt(g, startDate, 0) == Cursor(startDate, 0)
  {
  }

  /** A walk that emitted a point started on or before the end date. */
  lemma WalkStartsInRange(points: seq<ChartPoint>, rows: map<string, real>, g: Granularity, startDate: Date, endDate: Date)
    requires WellFormed(startDate) && WalkSoFar(points, rows, g, startDate, endDate)
    ensures points != [] ==> Ord(startDate) <= Ord(endDate)
  {
    if points != [] {
      CursorAtStart(g, startDate);
      assert points[0] == PointFor(rows, KeyOf(g, CursorAt(g, startDate, 0)));
    }
  }

  /**
   * The filling loop of getSalesChart: from midnight of the start date, emit
   * the point of each cursor while it is on or before the end date, then
   * step. Point i is the bucket of the cursor after i steps, with its total
   * from `rows` or 0, and the cursor after the last point is past the end.
   */
  method FillRange(rows: map<string, real>, g: Granularity, startDate: Date, endDate: Date) returns (points: seq<ChartPoint>)
    requires WellFormed(startDate)
    ensures Ord(endDate) < Ord(startDate) ==> points == []
    ensures WalkSoFar(points, rows, g, startDate, endDate)
    ensures Ord(CursorAt(g, startDate, |points|).date) > Ord(endDate)
  {
    var current := Cursor(startDate, 0);
    points := [];
    CursorAtStart(g, startDate);
    while Millis(current) <= EndMillis(endDate)
      invariant current == CursorAt(g, startDate, |points|)
      invariant WalkSoFar(points, rows, g, startDate, endDate)
      decreases EndMillis(endDate) - Millis(current)
    {
      WalkAdvances(points, rows, g, startDate, endDate);
      points := points + [PointFor(rows, KeyOf(g, current))];
      current := Step(g, current);
    }
    WalkStops(points, rows, g, startDate, endDate);
  }

  /**
   * getSalesChart(startDate, endDate): the bucket size chosen from the
   * range's length, the query's per-bucket totals, and the filled walk over
   * them.
   */
  method GetSalesChart(sales: seq<Sale>, startDate: Date, endDate: Date) returns (points: seq<ChartPoint>)
    requires IsInputDate(startDate) && IsInputDate(endDate)
    ensures Ord(endDate) < Ord(startDate) ==> points == []
    ensures var g := GranularityOf(startDate, endDate);
      && (forall i :: 0 <= i < |points| ==>
            && points[i] == PointFor(ChartRows(sales, g, startDate, endDate), KeyOf(g, CursorAt(g, startDate, i)))
            && Ord(CursorAt(g, startDate, i).date) <= Ord(endDate))
      && Ord(CursorAt(g, startDate, |points|).date) > Ord(endDate)
  {
    var g := GranularityOf(startDate, endDate);
    var rows := ChartRows(sales, g, startDate, endDate);
    points := FillRange(rows, g, startDate, endDate);
  }

  /** The hourly walk over N calendar days emits 24 * N points, hour i % 24 of day i / 24. */
  lemma HourlyWalkLength(startDate: Date, endDate: Date, k: nat)
    requires WellFormed(startDate) && Ord(startDate) <= Ord(endDate)
    requires forall i :: 0 <= i < k ==> Ord(CursorAt(Hour, startDate, i).date) <= Ord(endDate)
    requires Ord(CursorAt(Hour, startDate, k).date) > Ord(endDate)
    ensures k == 24 * (Ord(endDate) - Ord(startDate) + 1)
    ensures forall i :: 0 <= i < k ==> KeyOf(Hour, CursorAt(Hour, startDate, i)) == HourKey(AddDays(startDate, i / 24), i % 24)
  {
    var n := Ord(endDate) - Ord(startDate) + 1;
    assert k > 0;
    assert Ord(CursorAt(Hour, startDate, k - 1).date) <= Ord(endDate);
    assert (k - 1) / 24 <= n - 1 && k / 24 >= n;
  }

  /** The daily walk emits one point per calendar day of the range, both ends included. */
  lemma DailyWalkLength(startDate: Date, endDate: Date, k: nat)
    requires WellFormed(startDate) && Ord(startDate) <= Ord(endDate)
    requires forall i :: 0 <= i < k ==> Ord(CursorAt(Day, startDate, i).date) <= Ord(endDate)
    requires Ord(CursorAt(Day, startDate, k).date) > Ord(endDate)
    ensures k == Ord(endDate) - Ord(startDate) + 1
    ensures forall i :: 0 <= i < k ==> KeyOf(Day, CursorAt(Day, startDate, i)) == DayKey(AddDays(startDate, i))
  {
    assert k > 0;
    assert Ord(CursorAt(Day, startDate, k - 1).date) <= Ord(endDate);
  }

  /** After the first monthly step the cursor is always on the first day of a month. */
  lemma MonthCursorOnFirst(startDate: Date, i: nat)
    requires WellFormed(startDate) && i >= 1
    ensures MonthCursor(startDate, i).day == 1
  {
    MonthStepAdvance(MonthCursor(startDate, i - 1));
  }

  /** A sequence of integers that grows at every step grows from any point to any later one. */
  lemma {:induction false} ChainIncreases(f: nat -> int, i: nat, j: nat)
    requires i < j
    requires forall n: nat :: f(n) < f(n + 1)
    ensures f(i) < f(j)
    decreases j
  {
    if i < j - 1 {
      ChainIncreases(f, i, j - 1);
    }
  }

  /** Each monthly step moves the walk to a later month. */
  lemma MonthCursorAdvances(startDate: Date, n: nat)
    requires WellFormed(startDate)
    ensures var a := MonthCursor(startDate, n);
      var b := MonthCursor(startDate, n + 1);
      MonthIndex(a.year, a.month) < MonthIndex(b.year, b.month)
  {
    var a := MonthCursor(startDate, n);
    assert MonthCursor(startDate, n + 1) == MonthStep(a);
    MonthStepAdvance(a);
  }

  /** Month keys strictly increase along the walk, so no month appears twice. */
  lemma MonthKeysIncrease(startDate: Date, i: nat, j: nat)
    requires WellFormed(startDate) && i < j
    ensures var a := MonthCursor(startDate, i);
      var b := MonthCursor(startDate, j);
      MonthIndex(a.year, a.month) < MonthIndex(b.year, b.month)
  {
    var index := (n: nat) => var c := MonthCursor(startDate, n); MonthIndex(c.year, c.month);
    forall n: nat ensures index(n) < index(n + 1) {
      MonthCursorAdvances(startDate, n);
    }
    ChainIncreases(index, i, j);
  }

  /** One monthly step moves at most 62 days ahead. */
  lemma MonthStepBounded(d: Date)
    requires WellFormed(d)
    ensures Ord(MonthStep(d)) <= Ord(d) + 62
  {
    MonthStepCases(d);
    var f1 := FirstOfNextMonth(d.year, d.month);
    MonthStartNext(d.year, d.month);
    MonthStartNext(f1.year, f1.month);
  }

  /** A date on or after the first of a month and before the next monthly step lies in that month. */
  lemma SameMonthBeforeStep(c: Date, d: Date)
    requires WellFormed(c) && c.day == 1 && WellFormed(d)
    requires Ord(c) <= Ord(d) < Ord(MonthStep(c))
    ensures d.year == c.year && d.month == c.month
  {
    MonthStepCases(c);
    MonthStartNext(c.year, c.month);
    assert Ord(d) < MonthStart(c.year, c.month) + DaysInMonth(c.year, c.month);
    OrdInMonth(d);
    if MonthIndex(d.year, d.month) < MonthIndex(c.year, c.month) {
      MonthStartMonotone(d.year, d.month, c.year, c.month);
      assert false;
    } else if MonthIndex(c.year, c.month) < MonthIndex(d.year, d.month) {
      MonthStartMonotone(c.year, c.month, d.year, d.month);
      assert false;
    }
  }

  /**
   * The monthly walk starts at the start date's month and, over a range of 91
   * days or more, its last point is the end date's month.
   */
  lemma MonthlyWalkEnds(startDate: Date, endDate: Date, k: nat)
    requires WellFormed(startDate) && WellFormed(endDate)
    requires Ord(endDate) - Ord(startDate) + 1 >= 91
    requires forall i :: 0 <= i < k ==> Ord(CursorAt(Month, startDate, i).date) <= Ord(endDate)
    requires Ord(CursorAt(Month, startDate, k).date) > Ord(endDate)
    ensures k >= 2
    ensures KeyOf(Month, CursorAt(Month, startDate, 0)) == MonthKey(startDate.year, startDate.month)
    ensures KeyOf(Month, CursorAt(Month, startDate, k - 1)) == MonthKey(endDate.year, endDate.month)
  {
    assert k >= 1;
    if k == 1 {
      MonthStepBounded(startDate);
      assert false;
    }
    var c := MonthCursor(startDate, k - 1);
    MonthCursorOnFirst(startDate, k - 1);
    assert CursorAt(Month, startDate, k - 1).date == c;
    assert CursorAt(Month, startDate, k).date == MonthStep(c);
    SameMonthBeforeStep(c, endDate);
  }

  /** setMonth before setDate(1): from 31 January 2025 the walk jumps to March, skipping February. */
  lemma MonthStepSkipsFebruary()
    ensures KeyOf(Month, CursorAt(Month, Date(2025, 1, 31), 0)) == MonthKey(2025, 1)
    ensures KeyOf(Month, CursorAt(Month, Date(2025, 1, 31), 1)) == MonthKey(2025, 3)
  {
    MonthStepCases(Date(2025, 1, 31));
  }

  /** SUM(total_amount) over the completed sales of the window that fall in bucket `key`. */
  function BucketTotal(sales: seq<Sale>, g: Granularity, startDate: Date, endDate: Date, key: BucketKey): real {
    if sales == [] then 0.0
    else
      var x := sales[|sales| - 1];
      BucketTotal(sales[..|sales| - 1], g, startDate, endDate, key)
        + (if Counted(x, startDate, endDate) && SaleKey(g, x) == key then x.totalAmount else 0.0)
  }

  /** A bucket of granularity `g` whose fields render as the fixed-width text of the key. */
  predicate ProperKey(g: Granularity, k: BucketKey) {
    match k
    case HourKey(d, h) => g == Hour && ProperDate(d) && 0 <= h < 24
    case DayKey(d) => g == Day && ProperDate(d)
    case MonthKey(y, m) => g == Month && 1000 <= y <= 9999 && 1 <= m <= 12
  }

  predicate ProperDate(d: Date) {
    1000 <= d.year <= 9999 && 1 <= d.month <= 12 && 1 <= d.day <= 31
  }

  /** Distinct buckets have distinct key texts, so `rows.find` by text picks out exactly one bucket. */
  lemma KeyTextInjective(g: Granularity, a: BucketKey, b: BucketKey)
    requires ProperKey(g, a) && ProperKey(g, b)
    ensures KeyText(a) == KeyText(b) ==> a == b
  {
    if KeyText(a) == KeyText(b) {
      match a
      case HourKey(d1, h1) =>
        var HourKey(d2, h2) := b;
        HourKeyTextInjective(d1, h1, d2, h2);
      case DayKey(d1) =>
        var DayKey(d2) := b;
        assert KeyText(a) == NatText(d1.year) + "-" + Pad2(d1.month) + "-" + Pad2(d1.day) + "";
        assert KeyText(b) == NatText(d2.year) + "-" + Pad2(d2.month) + "-" + Pad2(d2.day) + "";
        DatePrefixInjective(d1, d2, "", "");
      case MonthKey(y1, m1) =>
        var MonthKey(y2, m2) := b;
        MonthKeyTextInjective(y1, m1, y2, m2);
    }
  }

  lemma HourKeyTextInjective(d1: Date, h1: int, d2: Date, h2: int)
    requires ProperDate(d1) && ProperDate(d2) && 0 <= h1 < 24 && 0 <= h2 < 24
    requires KeyText(HourKey(d1, h1)) == KeyText(HourKey(d2, h2))
    ensures d1 == d2 && h1 == h2
  {
    Pad2Digits(h1);
    Pad2Digits(h2);
    assert KeyText(HourKey(d1, h1)) == NatText(d1.year) + "-" + Pad2(d1.month) + "-" + Pad2(d1.day) + (" " + Pad2(h1));
    assert KeyText(HourKey(d2, h2)) == NatText(d2.year) + "-" + Pad2(d2.month) + "-" + Pad2(d2.day) + (" " + Pad2(h2));
    DatePrefixInjective(d1, d2, " " + Pad2(h1), " " + Pad2(h2));
    SplitRight(" ", Pad2(h1), " ", Pad2(h2));
    Pad2Injective(h1, h2);
  }

  lemma MonthKeyTextInjective(y1: int, m1: int, y2: int, m2: int)
    requires 1000 <= y1 <= 9999 && 1 <= m1 <= 12 && 1000 <= y2 <= 9999 && 1 <= m2 <= 12
    requires KeyText(MonthKey(y1, m1)) == KeyText(MonthKey(y2, m2))
    ensures y1 == y2 && m1 == m2
  {
    Pad2Digits(m1);
    Pad2Digits(m2);
    SplitRight(NatText(y1) + "-", Pad2(m1), NatText(y2) + "-", Pad2(m2));
    SplitRight(NatText(y1), "-", NatText(y2), "-");
    YearTextInjective(y1, y2);
    Pad2Injective(m1, m2);
  }

  /** `${y}-${m}-${d}` followed by a tail of fixed length determines the date and the tail. */
  lemma DatePrefixInjective(d1: Date, d2: Date, t1: string, t2: string)
    requires ProperDate(d1) && ProperDate(d2) && |t1| == |t2|
    requires NatText(d1.year) + "-" + Pad2(d1.month) + "-" + Pad2(d1.day) + t1
          == NatText(d2.year) + "-" + Pad2(d2.month) + "-" + Pad2(d2.day) + t2
    ensures d1 == d2 && t1 == t2
  {
    var y1, m1, e1 := NatText(d1.year), Pad2(d1.month), Pad2(d1.day);
    var y2, m2, e2 := NatText(d2.year), Pad2(d2.month), Pad2(d2.day);
    Pad2Digits(d1.month);
    Pad2Digits(d2.month);
    Pad2Digits(d1.day);
    Pad2Digits(d2.day);
    SplitRight(y1 + "-" + m1 + "-" + e1, t1, y2 + "-" + m2 + "-" + e2, t2);
    SplitRight(y1 + "-" + m1 + "-", e1, y2 + "-" + m2 + "-", e2);
    SplitRight(y1 + "-" + m1, "-", y2 + "-" + m2, "-");
    SplitRight(y1 + "-", m1, y2 + "-", m2);
    SplitRight(y1, "-", y2, "-");
    YearTextInjective(d1.year, d2.year);
    Pad2Injective(d1.month, d2.month);
    Pad2Injective(d1.day, d2.day);
  }

  /** Every sale counted in the window has a proper bucket. */
  lemma CountedSaleKeyProper(g: Granularity, x: Sale, startDate: Date, endDate: Date)
    requires IsInputDate(startDate) && IsInputDate(endDate) && WellFormedTime(x.createdAt)
    requires Counted(x, startDate, endDate)
    ensures ProperKey(g, SaleKey(g, x))
  {
    InWindowByDay(x.createdAt, startDate, endDate);
    YearBetween(startDate, x.createdAt.date, endDate);
  }

  /**
   * Gap fill: the total shown for a bucket is the sum over exactly the
   * completed sales of the window that fall in it, and 0 when there are none.
   */
  lemma {:induction false} FillIsBucketTotal(sales: seq<Sale>, g: Granularity, startDate: Date, endDate: Date, key: BucketKey)
    requires IsInputDate(startDate) && IsInputDate(endDate) && ProperKey(g, key)
    requires forall i :: 0 <= i < |sales| ==> WellFormedTime(sales[i].createdAt)
    ensures Fill(ChartRows(sales, g, startDate, endDate), KeyText(key)) == BucketTotal(sales, g, startDate, endDate, key)
    decreases |sales|
  {
    if sales != [] {
      var prefix := sales[..|sales| - 1];
      var x := sales[|sales| - 1];
      FillIsBucketTotal(prefix, g, startDate, endDate, key);
      if Counted(x, startDate, endDate) {
        CountedSaleKeyProper(g, x, startDate, endDate);
        KeyTextInjective(g, SaleKey(g, x), key);
      }
    }
  }

  /** The walk never goes back before the start date. */
  lemma {:induction false} CursorNotBeforeStart(g: Granularity, startDate: Date, i: nat)
    requires WellFormed(startDate)
    ensures Ord(startDate) <= Ord(CursorAt(g, startDate, i).date)
  {
    if g == Month && i > 0 {
      CursorNotBeforeStart(g, startDate, i - 1);
      MonthStepAdvance(MonthCursor(startDate, i - 1));
    }
  }

  /** Each point the walk emits shows the total of its own bucket. */
  lemma WalkPointTotal(sales: seq<Sale>, startDate: Date, endDate: Date, i: nat)
    requires IsInputDate(startDate) && IsInputDate(endDate)
    requires forall j :: 0 <= j < |sales| ==> WellFormedTime(sales[j].createdAt)
    requires Ord(CursorAt(GranularityOf(startDate, endDate), startDate, i).date) <= Ord(endDate)
    ensures var g := GranularityOf(startDate, endDate);
      var key := KeyOf(g, CursorAt(g, startDate, i));
      PointFor(ChartRows(sales, g, startDate, endDate), key).total == BucketTotal(sales, g, startDate, endDate, key)
  {
    var g := GranularityOf(startDate, endDate);
    var c := CursorAt(g, startDate, i);
    CursorNotBeforeStart(g, startDate, i);
    YearBetween(startDate, c.date, endDate);
    FillIsBucketTotal(sales, g, startDate, endDate, KeyOf(g, c));
  }
}
