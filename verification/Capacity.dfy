/** The capacity engine (src/lib/capacity-engine.ts): working days from the calendar,
    available hours within a person's tenure, and utilisation by practice and overall.
    Instants are milliseconds in one fixed time zone; hours and shares are real numbers. */
module Capacity {
  import opened Lists
  import opened Options

  const WORK_HOURS_PER_DAY := 8.0
  const MS_PER_DAY := 86400000

  /** The day an instant falls on; day 0 is Thursday, 1 January 1970. */
  function Day(instant: int): int {
    instant / MS_PER_DAY
  }

  /** A day has 24 hours. */
  lemma DayHolds(instant: int)
    ensures Day(instant) * 24 * 3600 * 1000 <= instant < (Day(instant) + 1) * 24 * 3600 * 1000
  {
  }

  /** 0 is Sunday. */
  function DayOfWeek(day: int): int {
    (day + 4) % 7
  }

  predicate IsWeekday(day: int) {
    DayOfWeek(day) != 0 && DayOfWeek(day) != 6
  }

  // ---------------------------------------------------------------- weekdays

  /** The weekdays from `a` to `b`, both included. */
  function Weekdays(a: int, b: int): set<int> {
    set d | a <= d <= b && IsWeekday(d)
  }

  /** Weekdays up to, not including, the day: five for every whole week since a Monday,
      and those of the week begun. */
  function WeekdaysBefore(day: int): int {
    var sinceMonday := day + 3;
    5 * (sinceMonday / 7) + if sinceMonday % 7 < 5 then sinceMonday % 7 else 5
  }

  /** The number of weekdays in any range has a closed form. */
  lemma {:induction false} WeekdaysClosedForm(a: int, b: int)
    requires a <= b + 1
    ensures |Weekdays(a, b)| == WeekdaysBefore(b + 1) - WeekdaysBefore(a)
    decreases b - a + 1
  {
    if a == b + 1 {
      assert Weekdays(a, b) == {};
    } else {
      WeekdaysClosedForm(a, b - 1);
      LastDay(a, b);
    }
  }

  lemma LastDay(a: int, b: int)
    requires a <= b
    ensures |Weekdays(a, b)| == |Weekdays(a, b - 1)| + if IsWeekday(b) then 1 else 0
  {
    assert Weekdays(a, b) == Weekdays(a, b - 1) + if IsWeekday(b) then {b} else {};
  }

  method WeekdaysInRange(start: int, end: int) returns (count: nat)
    ensures count == |Weekdays(Day(start), Day(end))|
  {
    var a, b := Day(start), Day(end);
    if b < a {
      assert Weekdays(a, b) == {};
      return 0;
    }
    count := 0;
    var cursor := a;
    while cursor <= b
      invariant a <= cursor <= b + 1
      invariant count == WeekdaysBefore(cursor) - WeekdaysBefore(a)
    {
      if IsWeekday(cursor) { count := count + 1; }
      cursor := cursor + 1;
    }
    WeekdaysClosedForm(a, b);
  }

  // ---------------------------------------------------------------- holidays

  function HolidayDays(holidays: seq<int>): set<int> {
    set i | 0 <= i < |holidays| :: Day(holidays[i])
  }

  /** Each weekday that is a holiday counts once, however often it is listed. */
  method HolidayWeekdaysInRange(holidays: seq<int>, start: int, end: int) returns (count: nat)
    ensures count == |HolidayDays(holidays) * Weekdays(Day(start), Day(end))|
  {
    var a, b := Day(start), Day(end);
    var seen: set<int> := {};
    for i := 0 to |holidays|
      invariant seen == HolidayDays(holidays[..i]) * Weekdays(a, b)
    {
      var t := Day(holidays[i]);
      assert HolidayDays(holidays[..i + 1]) == HolidayDays(holidays[..i]) + {t};
      if t >= a && t <= b && IsWeekday(t) && t !in seen { seen := seen + {t}; }
    }
    assert holidays[..|holidays|] == holidays;
    count := |seen|;
  }

  // --------------------------------------------------------- available hours

  datatype DateRange = DateRange(start: int, end: int)

  datatype Tenure = Tenure(fte: real, startDate: int, endDate: Option<int>)

  function TenureOverlap(period: DateRange, tenure: Tenure): Option<DateRange> {
    var start := Day(if period.start > tenure.startDate then period.start else tenure.startDate);
    var rosterEnd := if tenure.endDate.Some? then tenure.endDate.value else period.end;
    var end := Day(if period.end < rosterEnd then period.end else rosterEnd);
    if end < start then None else Some(DateRange(start * MS_PER_DAY, end * MS_PER_DAY))
  }

  /** On the roster that day. */
  predicate Rostered(tenure: Tenure, day: int) {
    Day(tenure.startDate) <= day && (tenure.endDate.Some? ==> day <= Day(tenure.endDate.value))
  }

  /** The overlap is the days of the period on which the person is on the roster. */
  lemma OverlapExactly(period: DateRange, tenure: Tenure, day: int)
    ensures var overlap := TenureOverlap(period, tenure);
            (overlap.Some? && Day(overlap.value.start) <= day <= Day(overlap.value.end)) <==>
            (Day(period.start) <= day <= Day(period.end) && Rostered(tenure, day))
  {
    forall n: int ensures Day(n * MS_PER_DAY) == n { }
  }

  /** The days someone can work in a period: weekdays on the roster that are no holiday. */
  function WorkingDays(period: DateRange, tenure: Tenure, holidays: seq<int>): set<int> {
    set d | Day(period.start) <= d <= Day(period.end) && IsWeekday(d) && Rostered(tenure, d) && d !in HolidayDays(holidays)
  }

  function HoursOf(period: DateRange, tenure: Tenure, holidays: seq<int>): real {
    Hours(|WorkingDays(period, tenure, holidays)|, tenure.fte)
  }

  function Hours(days: int, fte: real): real {
    days as real * WORK_HOURS_PER_DAY * fte
  }

  /** Eight hours for every working day, at the person's share. Counted holidays are
      among the counted weekdays, so that the difference is never negative and the
      clamp at zero never acts. */
  method AvailableHours(period: DateRange, tenure: Tenure, holidays: seq<int>) returns (hours: real)
    ensures hours == HoursOf(period, tenure, holidays)
    ensures hours == |WorkingDays(period, tenure, holidays)| as real * 8.0 * tenure.fte
  {
    WorkingDayCount(period, tenure, holidays);
    var overlap := TenureOverlap(period, tenure);
    if overlap.None? { return 0.0; }
    var weekdays := WeekdaysInRange(overlap.value.start, overlap.value.end);
    var off := HolidayWeekdaysInRange(holidays, overlap.value.start, overlap.value.end);
    var workingDays := (weekdays as int) - off;
    assert workingDays >= 0;
    hours := Hours(if workingDays > 0 then workingDays else 0, tenure.fte);
  }

  lemma WorkingDayCount(period: DateRange, tenure: Tenure, holidays: seq<int>)
    ensures var overlap := TenureOverlap(period, tenure);
            |WorkingDays(period, tenure, holidays)| as int ==
            if overlap.None? then 0
            else var weekdays := Weekdays(Day(overlap.value.start), Day(overlap.value.end));
                 |weekdays| - |HolidayDays(holidays) * weekdays|
  {
    OverlapDays(period, tenure, holidays);
  }

  lemma OverlapDays(period: DateRange, tenure: Tenure, holidays: seq<int>)
    ensures var overlap := TenureOverlap(period, tenure);
            WorkingDays(period, tenure, holidays) ==
            if overlap.None? then {} else Weekdays(Day(overlap.value.start), Day(overlap.value.end)) - HolidayDays(holidays)
  {
    forall d: int
      ensures var overlap := TenureOverlap(period, tenure);
              (overlap.Some? && Day(overlap.value.start) <= d <= Day(overlap.value.end)) <==>
              (Day(period.start) <= d <= Day(period.end) && Rostered(tenure, d))
    {
      OverlapExactly(period, tenure, d);
    }
  }

  /** Splitting a period between any two days loses no hour and counts none twice,
      whatever the tenure and the holidays. */
  lemma HoursAreAdditive(period: DateRange, before: DateRange, after: DateRange, tenure: Tenure, holidays: seq<int>)
    requires Day(before.start) == Day(period.start) && Day(after.end) == Day(period.end)
    requires Day(after.start) == Day(before.end) + 1
    requires Day(period.start) <= Day(after.start) && Day(before.end) <= Day(period.end)
    ensures HoursOf(period, tenure, holidays) == HoursOf(before, tenure, holidays) + HoursOf(after, tenure, holidays)
  {
    var a, b := WorkingDays(before, tenure, holidays), WorkingDays(after, tenure, holidays);
    DaysSplit(period, before, after, tenure, holidays);
  }

  lemma DaysSplit(period: DateRange, before: DateRange, after: DateRange, tenure: Tenure, holidays: seq<int>)
    requires Day(before.start) == Day(period.start) && Day(after.end) == Day(period.end)
    requires Day(after.start) == Day(before.end) + 1
    requires Day(period.start) <= Day(after.start) && Day(before.end) <= Day(period.end)
    ensures |WorkingDays(period, tenure, holidays)| == |WorkingDays(before, tenure, holidays)| + |WorkingDays(after, tenure, holidays)|
  {
    var all, a, b := WorkingDays(period, tenure, holidays), WorkingDays(before, tenure, holidays), WorkingDays(after, tenure, holidays);
    forall d: int ensures d in all <==> d in a || d in b { }
    assert all == a + b;
    assert a !! b;
  }

  // ------------------------------------------------------------------ roll-ups

  datatype Resource = Resource(
    id: string, name: string, psPractice: string, tenure: Tenure, targetUtilPct: real, isBillableHead: bool,
    billableHours: real, projectCount: nat)

  datatype Row = Row(
    id: string, name: string, psPractice: string, fte: real, isBillableHead: bool, availableHours: real,
    billableHours: real, utilizationPct: real, targetUtilPct: real, attainmentPct: real, projectCount: nat, overloaded: bool)

  const CONCURRENCY_OVERLOAD_THRESHOLD := 5

  method ResourceCapacityRow(r: Resource, period: DateRange, holidays: seq<int>) returns (row: Row)
    ensures row.availableHours == HoursOf(period, r.tenure, holidays) && row.billableHours == r.billableHours
    ensures r.isBillableHead && row.availableHours > 0.0 ==> row.utilizationPct * row.availableHours == r.billableHours
    ensures !(r.isBillableHead && row.availableHours > 0.0) ==> row.utilizationPct == 0.0
    ensures r.targetUtilPct > 0.0 ==> row.attainmentPct * r.targetUtilPct == row.utilizationPct
    ensures r.targetUtilPct <= 0.0 ==> row.attainmentPct == 0.0
    ensures row.overloaded <==> r.projectCount > 5
    ensures row.id == r.id && row.name == r.name && row.psPractice == r.psPractice && row.fte == r.tenure.fte
    ensures row.isBillableHead == r.isBillableHead && row.targetUtilPct == r.targetUtilPct && row.projectCount == r.projectCount
  {
    var avail := AvailableHours(period, r.tenure, holidays);
    var util := if r.isBillableHead && avail > 0.0 then r.billableHours / avail else 0.0;
    var attainment := if r.targetUtilPct > 0.0 then util / r.targetUtilPct else 0.0;
    row := Row(r.id, r.name, r.psPractice, r.tenure.fte, r.isBillableHead, avail, r.billableHours, util,
               r.targetUtilPct, attainment, r.projectCount, r.projectCount > CONCURRENCY_OVERLOAD_THRESHOLD);
  }

  datatype Summary = Summary(
    headcountFte: real, availableHours: real, billableHours: real, utilizationPct: real, targetUtilPct: real,
    attainmentPct: real)

  predicate Billable(r: Row) { r.isBillableHead }

  function Available(r: Row): real { r.availableHours }

  function Billed(r: Row): real { r.billableHours }

  function Fte(r: Row): real { r.fte }

  function Target(r: Row): real { r.targetUtilPct * r.fte }

  function BlendedUtilization(billable: real, available: real): real {
    if available <= 0.0 then 0.0 else billable / available
  }

  function BlendedSummary(rows: seq<Row>): Summary {
    var heads := Keep(rows, Billable);
    SummaryOf(Sum(heads, Fte), Sum(heads, Available), Sum(rows, Billed), Sum(heads, Target))
  }

  /** The figures of a summary, from the sums they are made of. */
  function SummaryOf(fte: real, available: real, billable: real, targets: real): Summary {
    var util := BlendedUtilization(billable, available);
    var target := if fte > 0.0 then targets / fte else 0.0;
    Summary(fte, available, billable, util, target, if target > 0.0 then util / target else 0.0)
  }

  /** Utilisation times available hours is all the hours billed, the target times the
      heads is the sum of theirs, attainment times target is utilisation; what has no
      denominator is zero. */
  predicate Means(s: Summary, fte: real, available: real, billable: real, targets: real) {
    && s.headcountFte == fte && s.availableHours == available && s.billableHours == billable
    && (if available > 0.0 then s.utilizationPct * available == billable else s.utilizationPct == 0.0)
    && (if fte > 0.0 then s.targetUtilPct * fte == targets else s.targetUtilPct == 0.0)
    && (if s.targetUtilPct > 0.0 then s.attainmentPct * s.targetUtilPct == s.utilizationPct else s.attainmentPct == 0.0)
  }

  lemma SummaryMeaning(rows: seq<Row>)
    ensures Means(BlendedSummary(rows), Sum(Keep(rows, Billable), Fte), Sum(Keep(rows, Billable), Available),
                  Sum(rows, Billed), Sum(Keep(rows, Billable), Target))
    ensures forall r :: (Billable(r) <==> r.isBillableHead) && Fte(r) == r.fte && Available(r) == r.availableHours
                        && Billed(r) == r.billableHours && Target(r) == r.targetUtilPct * r.fte
  {
    var heads := Keep(rows, Billable);
    RatiosMeaning(Sum(heads, Fte), Sum(heads, Available), Sum(rows, Billed), Sum(heads, Target));
  }

  /** The blended target is a mean of the heads' targets, weighted by their shares: it
      lies between any bounds that hold of all of them. */
  lemma TargetIsMean(rows: seq<Row>, lo: real, hi: real)
    requires forall r :: r in Keep(rows, Billable) ==> r.fte >= 0.0 && lo <= r.targetUtilPct <= hi
    requires BlendedSummary(rows).headcountFte > 0.0
    ensures lo <= BlendedSummary(rows).targetUtilPct <= hi
  {
    var heads := Keep(rows, Billable);
    WeightedBounds(heads, lo, hi);
    SummaryQuotient(Sum(heads, Fte), Sum(heads, Available), Sum(rows, Billed), Sum(heads, Target), lo, hi);
  }

  lemma SummaryQuotient(fte: real, available: real, billable: real, targets: real, lo: real, hi: real)
    requires fte > 0.0 && lo * fte <= targets <= hi * fte
    ensures lo <= SummaryOf(fte, available, billable, targets).targetUtilPct <= hi
  {
    QuotientBounds(targets, fte, lo, hi);
  }

  lemma QuotientBounds(total: real, weight: real, lo: real, hi: real)
    requires weight > 0.0 && lo * weight <= total <= hi * weight
    ensures lo <= total / weight <= hi
  {
    var q := total / weight;
    assert q * weight == total;
  }

  lemma {:induction false} WeightedBounds(heads: seq<Row>, lo: real, hi: real)
    requires forall r :: r in heads ==> r.fte >= 0.0 && lo <= r.targetUtilPct <= hi
    ensures lo * Sum(heads, Fte) <= Sum(heads, Target) <= hi * Sum(heads, Fte)
  {
    if heads != [] {
      var front, last := heads[..|heads| - 1], heads[|heads| - 1];
      WeightedBounds(front, lo, hi);
      OneMoreWeighted(Sum(front, Fte), Sum(front, Target), last.targetUtilPct, last.fte, lo, hi);
    }
  }

  lemma OneMoreWeighted(weight: real, total: real, x: real, w: real, lo: real, hi: real)
    requires lo * weight <= total <= hi * weight && w >= 0.0 && lo <= x <= hi
    ensures lo * (weight + w) <= total + x * w <= hi * (weight + w)
  {
    assert lo * (weight + w) == lo * weight + lo * w;
    assert hi * (weight + w) == hi * weight + hi * w;
    Weighted(x, w, lo, hi);
  }

  lemma Weighted(x: real, w: real, lo: real, hi: real)
    requires w >= 0.0 && lo <= x <= hi
    ensures lo * w <= x * w <= hi * w
  {
  }

  lemma RatiosMeaning(fte: real, available: real, billable: real, targets: real)
    ensures Means(SummaryOf(fte, available, billable, targets), fte, available, billable, targets)
  {
  }

  datatype Group = Group(practice: string, summary: Summary, rows: seq<Row>)

  function PracticeOf(r: Row): string { r.psPractice }

  /** The practices in the order in which they first appear. */
  function PracticesTo(rows: seq<Row>, n: nat): (r: seq<string>)
    requires n <= |rows|
    ensures Distinct(r)
    ensures forall k :: k in r <==> exists i :: 0 <= i < n && rows[i].psPractice == k
  {
    if n == 0 then []
    else
      var rest := PracticesTo(rows, n - 1);
      if rows[n - 1].psPractice in rest then rest else rest + [rows[n - 1].psPractice]
  }

  function GroupOf(rows: seq<Row>): string -> Group {
    k => Group(k, BlendedSummary(Keep(rows, Has(PracticeOf, k))), Keep(rows, Has(PracticeOf, k)))
  }

  function ByPractice(le: (string, string) -> bool): (Group, Group) -> bool {
    (a: Group, b: Group) => le(a.practice, b.practice)
  }

  method CollectByPractice(rows: seq<Row>) returns (names: seq<string>, byPractice: map<string, seq<Row>>)
    ensures names == PracticesTo(rows, |rows|)
    ensures forall k :: k in names ==> k in byPractice && byPractice[k] == KeepTo(rows, |rows|, Has(PracticeOf, k))
  {
    byPractice, names := map[], [];
    for i := 0 to |rows|
      invariant names == PracticesTo(rows, i)
      invariant forall k :: k in byPractice <==> k in names
      invariant forall k :: k in names ==> byPractice[k] == KeepTo(rows, i, Has(PracticeOf, k))
    {
      var r := rows[i];
      var list := if r.psPractice in byPractice then byPractice[r.psPractice] else [];
      if r.psPractice !in byPractice { NoneYet(rows, i, r.psPractice); }
      forall k | k in names && k != r.psPractice ensures KeepTo(rows, i + 1, Has(PracticeOf, k)) == byPractice[k] {
        KeepToNext(rows, i, k);
      }
      KeepToNext(rows, i, r.psPractice);
      byPractice := byPractice[r.psPractice := list + [r]];
      names := if r.psPractice in names then names else names + [r.psPractice];
    }
  }

  lemma KeepToNext(rows: seq<Row>, i: nat, k: string)
    requires i < |rows|
    ensures KeepTo(rows, i + 1, Has(PracticeOf, k)) ==
            KeepTo(rows, i, Has(PracticeOf, k)) + if rows[i].psPractice == k then [rows[i]] else []
  {
    assert Has(PracticeOf, k)(rows[i]) <==> rows[i].psPractice == k;
  }

  lemma {:induction false} NoneYet(rows: seq<Row>, n: nat, k: string)
    requires n <= |rows| && k !in PracticesTo(rows, n)
    ensures KeepTo(rows, n, Has(PracticeOf, k)) == []
  {
    if n > 0 {
      assert rows[n - 1].psPractice in PracticesTo(rows, n);
      KeepToNext(rows, n - 1, k);
      NoneYet(rows, n - 1, k);
    }
  }

  function EntryOf(byPractice: map<string, seq<Row>>): string -> Group {
    (k: string) =>
      var list := if k in byPractice then byPractice[k] else [];
      Group(k, BlendedSummary(list), list)
  }

  /** `le` is the comparison of names that the locale prescribes. */
  method GroupByPractice(rows: seq<Row>, le: (string, string) -> bool) returns (groups: seq<Group>)
    ensures groups == Sorted(Mapped(PracticesTo(rows, |rows|), GroupOf(rows)), ByPractice(le))
  {
    var names, byPractice := CollectByPractice(rows);
    forall i | 0 <= i < |names| ensures EntryOf(byPractice)(names[i]) == GroupOf(rows)(names[i]) {
      KeepToIs(rows, Has(PracticeOf, names[i]));
    }
    SameImages(names, EntryOf(byPractice), GroupOf(rows));
    groups := Sorted(Mapped(names, EntryOf(byPractice)), ByPractice(le));
  }

  function AvailableIn(g: Group): real { g.summary.availableHours }

  function BilledIn(g: Group): real { g.summary.billableHours }

  function FteIn(g: Group): real { g.summary.headcountFte }

  function AvailableIfBillable(r: Row): real { if r.isBillableHead then r.availableHours else 0.0 }

  function FteIfBillable(r: Row): real { if r.isBillableHead then r.fte else 0.0 }

  /** The practices together have the hours and heads of the whole organization. */
  lemma PracticesAddUp(rows: seq<Row>, le: (string, string) -> bool)
    ensures var groups := Sorted(Mapped(PracticesTo(rows, |rows|), GroupOf(rows)), ByPractice(le));
            && Sum(groups, AvailableIn) == BlendedSummary(rows).availableHours
            && Sum(groups, BilledIn) == BlendedSummary(rows).billableHours
            && Sum(groups, FteIn) == BlendedSummary(rows).headcountFte
  {
    forall members: seq<Row>, k: string
      ensures var g := Group(k, BlendedSummary(members), members);
              AvailableIn(g) == Sum(members, AvailableIfBillable) && FteIn(g) == Sum(members, FteIfBillable)
    {
      SumKept(members, Billable, Available, AvailableIfBillable);
      SumKept(members, Billable, Fte, FteIfBillable);
    }
    PracticeSum(rows, le, AvailableIn, AvailableIfBillable);
    PracticeSum(rows, le, BilledIn, Billed);
    PracticeSum(rows, le, FteIn, FteIfBillable);
    SumKept(rows, Billable, Available, AvailableIfBillable);
    SumKept(rows, Billable, Fte, FteIfBillable);
  }

  lemma PracticeSum(rows: seq<Row>, le: (string, string) -> bool, f: Group -> real, h: Row -> real)
    requires forall members: seq<Row>, k: string :: f(Group(k, BlendedSummary(members), members)) == Sum(members, h)
    ensures Sum(Sorted(Mapped(PracticesTo(rows, |rows|), GroupOf(rows)), ByPractice(le)), f) == Sum(rows, h)
  {
    var names := PracticesTo(rows, |rows|);
    SortedSum(Mapped(names, GroupOf(rows)), ByPractice(le), f);
    SumOfGroups(rows, PracticeOf, names, GroupOf(rows), f, h);
    GroupedIsPermutation(rows, PracticeOf, names);
    SumOfPermutation(Grouped(rows, PracticeOf, names), rows, h);
  }

  /** Every practice that some row has is one group, holding exactly its rows, and the
      groups come in the order of the names. */
  lemma GroupsExactly(rows: seq<Row>, le: (string, string) -> bool, g: Group)
    requires TotalPreorder(le)
    ensures var groups := Sorted(Mapped(PracticesTo(rows, |rows|), GroupOf(rows)), ByPractice(le));
            && SortedBy(groups, ByPractice(le))
            && (g in groups <==> && (exists i :: 0 <= i < |rows| && rows[i].psPractice == g.practice)
                                 && g.rows == Keep(rows, Has(PracticeOf, g.practice)) && g.summary == BlendedSummary(g.rows))
  {
    var names := PracticesTo(rows, |rows|);
    var all := Mapped(names, GroupOf(rows));
    ByPracticeIsOrder(le);
    SortedIsSorted(all, ByPractice(le));
    SortedMembers(all, ByPractice(le), g);
    if g in all {
      var i :| 0 <= i < |all| && all[i] == g;
      assert g == GroupOf(rows)(names[i]);
    }
    if g.practice in names && g == GroupOf(rows)(g.practice) {
      var i :| 0 <= i < |names| && names[i] == g.practice;
      assert all[i] == g;
    }
  }

  lemma ByPracticeIsOrder(le: (string, string) -> bool)
    requires TotalPreorder(le)
    ensures TotalPreorder(ByPractice(le))
  {
    forall a: Group, b: Group ensures ByPractice(le)(a, b) || ByPractice(le)(b, a) {
      assert le(a.practice, b.practice) || le(b.practice, a.practice);
    }
    forall a: Group, b: Group, c: Group | ByPractice(le)(a, b) && ByPractice(le)(b, c) ensures ByPractice(le)(a, c) {
      assert le(a.practice, b.practice) && le(b.practice, c.practice);
    }
  }
}
