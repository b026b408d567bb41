/**
 * The monthly archive: Done counts for the month shown (in total, for Work and for Life), one bar
 * per calendar day, the Daily Peak figure, and the buttons that step the month.
 */
module MonthlyPage {
  import opened Wrappers
  import opened Calendar
  import opened Text
  import opened Seqs
  import opened TasksRoute

  /** `workDone`: Done tasks whose category is exactly `Work`. */
  function WorkDone(tasks: seq<Task>): nat
  {
    |Filter(DoneTasks(tasks), (t: Task) => t.cat == "Work")|
  }

  /** `lifeDone`: Done tasks whose category is exactly `Life`. */
  function LifeDone(tasks: seq<Task>): nat
  {
    |Filter(DoneTasks(tasks), (t: Task) => t.cat == "Life")|
  }

  /** A task has one category, so the Work and Life figures never count a task twice. */
  lemma WorkLifeBound(tasks: seq<Task>)
    ensures WorkDone(tasks) + LifeDone(tasks) <= |DoneTasks(tasks)|
  {
    FilterDisjointSum(DoneTasks(tasks), (t: Task) => t.cat == "Work", (t: Task) => t.cat == "Life");
  }

  /** `eachDayOfInterval` from the first to the last day of the month of `month`. */
  function DaysOfMonth(month: Date): (days: seq<Date>)
    requires Valid(month)
    ensures |days| == DaysInMonth(month.year, month.month)
    ensures forall i :: 0 <= i < |days| ==>
      Valid(days[i]) && days[i].year == month.year && days[i].month == month.month && days[i].day == i + 1
  {
    seq(DaysInMonth(month.year, month.month), i => Date(month.year, month.month, i + 1))
  }

  /** The days of a month follow each other without gaps, from the 1st to the last day. */
  lemma DaysOfMonthConsecutive(month: Date, i: int)
    requires Valid(month) && 0 <= i < |DaysOfMonth(month)| - 1
    ensures DaysOfMonth(month)[i + 1] == NextDay(DaysOfMonth(month)[i])
    ensures DayNumber(DaysOfMonth(month)[i + 1]) == DayNumber(DaysOfMonth(month)[i]) + 1
  {
    NextDayNumber(DaysOfMonth(month)[i]);
  }

  /** One bar of the daily chart. */
  datatype DayStat = DayStat(dayStr: string, count: nat, dayLabel: string)

  /** Done tasks whose date string is exactly `dayStr`. */
  function CountOn(done: seq<Task>, dayStr: string): (n: nat)
    ensures n <= |done|
  {
    |Filter(done, (t: Task) => t.date == Some(dayStr))|
  }

  /** `dailyStats`: `daysInMonth` mapped to each day's `yyyy-MM-dd` string, the number of Done tasks
      dated exactly that string, and its day of the month without padding. */
  function DailyStats(tasks: seq<Task>, month: Date): (stats: seq<DayStat>)
    requires Renderable(month)
    ensures |stats| == DaysInMonth(month.year, month.month)
    ensures forall i :: 0 <= i < |stats| ==>
      && stats[i].dayStr == Format(Date(month.year, month.month, i + 1))
      && ParseIsoDate(stats[i].dayStr) == Some(Date(month.year, month.month, i + 1))
      && stats[i].count == CountOn(DoneTasks(tasks), stats[i].dayStr)
      && stats[i].dayLabel == Unpadded(i + 1)
  {
    var days := DaysOfMonth(month);
    seq(|days|, i requires 0 <= i < |days| => DayStatOf(tasks, days[i]))
  }

  /** The bar for one day. */
  function DayStatOf(tasks: seq<Task>, day: Date): (stat: DayStat)
    requires Renderable(day)
    ensures stat.dayStr == Format(day) && ParseIsoDate(stat.dayStr) == Some(day)
    ensures stat.count == CountOn(DoneTasks(tasks), stat.dayStr)
    ensures stat.dayLabel == Unpadded(day.day)
  {
    ParseFormat(day);
    var dayStr := Format(day);
    DayStat(dayStr, CountOn(DoneTasks(tasks), dayStr), Unpadded(day.day))
  }

  /** Distinct days have distinct date strings. */
  lemma DayStringsDistinct(tasks: seq<Task>, month: Date, i: int, j: int)
    requires Renderable(month)
    requires 0 <= i < j < |DailyStats(tasks, month)|
    ensures DailyStats(tasks, month)[i].dayStr != DailyStats(tasks, month)[j].dayStr
  {
  }

  /** The sum of the bars. */
  function TotalCount(stats: seq<DayStat>): nat
  {
    if stats == [] then 0 else stats[0].count + TotalCount(stats[1..])
  }

  /** A task dated on one of the days of the chart. */
  predicate OnChartedDay(stats: seq<DayStat>, t: Task)
  {
    t.date.Some? && exists st :: st in stats && st.dayStr == t.date.value
  }

  /** Bars over distinct day strings count distinct tasks: their total is the number of tasks dated
      on one of those days. */
  lemma {:induction false} TotalCountsCharted(done: seq<Task>, stats: seq<DayStat>)
    requires forall i :: 0 <= i < |stats| ==> stats[i].count == CountOn(done, stats[i].dayStr)
    requires forall i, j :: 0 <= i < j < |stats| ==> stats[i].dayStr != stats[j].dayStr
    ensures TotalCount(stats) == |Filter(done, t => OnChartedDay(stats, t))|
  {
    if stats == [] {
      FilterCongruent(done, t => OnChartedDay(stats, t), _ => false);
      FilterNone(done);
    } else {
      var rest := stats[1..];
      TotalCountsCharted(done, rest);
      forall t: Task ensures OnChartedDay(stats, t) == (t.date == Some(stats[0].dayStr) || OnChartedDay(rest, t)) {
        if OnChartedDay(stats, t) {
          var st :| st in stats && st.dayStr == t.date.value;
          if st != stats[0] {
            assert st in rest;
          }
        }
      }
      FilterDisjointUnion(done, (t: Task) => t.date == Some(stats[0].dayStr), t => OnChartedDay(rest, t), t => OnChartedDay(stats, t));
    }
  }

  /** A predicate that never holds keeps nothing. */
  lemma {:induction false} FilterNone(s: seq<Task>)
    ensures Filter(s, _ => false) == []
  {
    if s != [] {
      FilterNone(s[1..]);
    }
  }

  /** The bars never add up to more than the month's Done tasks. */
  lemma DailyTotalBound(tasks: seq<Task>, month: Date)
    requires Renderable(month)
    ensures TotalCount(DailyStats(tasks, month)) <= |DoneTasks(tasks)|
  {
    var stats := DailyStats(tasks, month);
    forall i, j | 0 <= i < j < |stats| ensures stats[i].dayStr != stats[j].dayStr {
      DayStringsDistinct(tasks, month, i, j);
    }
    TotalCountsCharted(DoneTasks(tasks), stats);
  }

  /** `maxDailyCount`: `Math.max` over the counts and 1. */
  function MaxDailyCount(stats: seq<DayStat>): (m: nat)
    ensures m >= 1
    ensures forall i :: 0 <= i < |stats| ==> stats[i].count <= m
    ensures m == 1 || exists i :: 0 <= i < |stats| && stats[i].count == m
  {
    if stats == [] then 1
    else
      var rest := MaxDailyCount(stats[1..]);
      if stats[0].count >= rest then stats[0].count
      else
        assert forall i :: 1 <= i < |stats| ==> stats[i] == stats[1..][i - 1];
        rest
  }

  /** The Daily Peak figure: 0 when the page has no Done task, otherwise `maxDailyCount`. */
  function DailyPeak(doneCount: nat, maxDaily: nat): nat
  {
    if maxDaily == 1 && doneCount == 0 then 0 else maxDaily
  }

  /** Daily Peak is 0 exactly when there is no Done task, and otherwise bounds every day's count. */
  lemma DailyPeakShown(tasks: seq<Task>, month: Date)
    requires Renderable(month)
    ensures var stats := DailyStats(tasks, month);
            var peak := DailyPeak(|DoneTasks(tasks)|, MaxDailyCount(stats));
            && (peak == 0 <==> DoneTasks(tasks) == [])
            && (DoneTasks(tasks) != [] ==> peak == MaxDailyCount(stats))
            && forall i :: 0 <= i < |stats| ==> stats[i].count <= peak
  {
    var stats := DailyStats(tasks, month);
    if DoneTasks(tasks) == [] {
      forall i | 0 <= i < |stats| ensures stats[i].count == 0 {
      }
    }
  }

  /** The month the page shows; the arrows step it. */
  class MonthlyView {
    var currentMonth: Date

    predicate Valid()
      reads this
    {
      Calendar.Valid(currentMonth)
    }

    /** The page opens on today. */
    constructor(today: Date)
      requires Calendar.Valid(today)
      ensures Valid() && currentMonth == today
    {
      currentMonth := today;
    }

    /** `prevMonth`: `subMonths(currentMonth, 1)`. */
    method PrevMonth()
      requires Valid()
      modifies this
      ensures Valid()
      ensures currentMonth == AddMonths(old(currentMonth), -1)
      ensures MonthIndex(currentMonth) == MonthIndex(old(currentMonth)) - 1
    {
      currentMonth := AddMonths(currentMonth, -1);
    }

    /** `nextMonth`: `addMonths(currentMonth, 1)`. */
    method NextMonth()
      requires Valid()
      modifies this
      ensures Valid()
      ensures currentMonth == AddMonths(old(currentMonth), 1)
      ensures MonthIndex(currentMonth) == MonthIndex(old(currentMonth)) + 1
    {
      currentMonth := AddMonths(currentMonth, 1);
    }
  }
}
