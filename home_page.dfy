/**
 * The home (focus) page: today's open tasks, and today's done/remaining counts with the progress
 * rate shown beside them. `today` is the viewer's local date rendered as `yyyy-MM-dd`.
 */
module HomePage {
  import opened Wrappers
  import opened Seqs
  import opened TasksRoute

  /** What `res.json()` produced: the page keeps it only if it is an array. */
  datatype Fetched = TaskArray(tasks: seq<Task>) | NotAnArray

  /** `Array.isArray(data) ? data : []`. */
  function FetchedTasks(data: Fetched): (tasks: seq<Task>)
    ensures data.TaskArray? ==> tasks == data.tasks
    ensures data.NotAnArray? ==> tasks == []
  {
    if data.TaskArray? then data.tasks else []
  }

  /** A task dated today that passes the category filter (any filter other than `All` keeps Work). */
  predicate IsTodays(today: string, filter: string, t: Task)
  {
    t.date == Some(today) && (filter == "All" || t.cat == "Work")
  }

  /** `todayTasks`: today's tasks under the filter, done or not. */
  function TodayTasks(all: seq<Task>, today: string, filter: string): (r: seq<Task>)
    ensures forall t :: t in r <==> t in all && IsTodays(today, filter, t)
  {
    Filter(all, t => IsTodays(today, filter, t))
  }

  /** `displayTasks`: today's tasks under the filter that are not Done, in their fetched order. */
  function DisplayTasks(all: seq<Task>, today: string, filter: string): (r: seq<Task>)
    ensures forall t :: t in r <==> t in all && t.date == Some(today) && !IsDone(t) && (filter == "All" || t.cat == "Work")
  {
    Filter(all, t => IsTodays(today, filter, t) && !IsDone(t))
  }

  /** `todayDoneCount`. */
  function DoneCount(all: seq<Task>, today: string, filter: string): nat
  {
    |Filter(TodayTasks(all, today, filter), IsDone)|
  }

  /** `todayRemainingCount`. */
  function RemainingCount(all: seq<Task>, today: string, filter: string): nat
  {
    |Filter(TodayTasks(all, today, filter), t => !IsDone(t))|
  }

  /** Every task of today is counted once, as done or as remaining, and the list shows exactly the
      remaining ones. */
  lemma TodayCounts(all: seq<Task>, today: string, filter: string)
    ensures DoneCount(all, today, filter) + RemainingCount(all, today, filter) == |TodayTasks(all, today, filter)|
    ensures |DisplayTasks(all, today, filter)| == RemainingCount(all, today, filter)
    ensures DoneCount(all, today, filter) <= |TodayTasks(all, today, filter)|
  {
    var todays := TodayTasks(all, today, filter);
    FilterPartition(todays, IsDone, t => !IsDone(t));
    FilterFilter(all, t => IsTodays(today, filter, t), t => !IsDone(t), t => IsTodays(today, filter, t) && !IsDone(t));
  }

  /** `progressRate`: 0 when nothing is due today, otherwise `Math.round(done / total * 100)`, the
      percentage rounded to the nearest integer with halves rounded up. */
  function ProgressRate(done: nat, total: nat): (rate: int)
    requires done <= total
    ensures 0 <= rate <= 100
    ensures total == 0 ==> rate == 0
    ensures total > 0 ==> 200 * done - total < 2 * total * rate <= 200 * done + total
  {
    if total == 0 then 0
    else
      var rate := (200 * done + total) / (2 * total);
      RoundingBounds(200 * done + total, 2 * total, rate);
      RateRange(done, total, rate);
      rate
  }

  /** Integer division rounds down, so the quotient times the divisor is within one divisor below
      the dividend. */
  lemma RoundingBounds(n: nat, d: nat, q: int)
    requires d > 0 && q == n / d
    ensures n - d < d * q <= n
  {
  }

  /** A multiple of a positive number grows with the multiplier. */
  lemma MultiplyMonotone(c: int, a: int, b: int)
    requires c > 0 && a <= b
    ensures c * a <= c * b
  {
  }

  /** A value within half a step of `done / total` as a percentage is a percentage. */
  lemma RateRange(done: nat, total: nat, rate: int)
    requires 0 < total && done <= total
    requires 200 * done - total < 2 * total * rate <= 200 * done + total
    ensures 0 <= rate <= 100
  {
    if rate < 0 {
      MultiplyMonotone(2 * total, rate, -1);
    }
    if rate > 100 {
      MultiplyMonotone(2 * total, 101, rate);
    }
  }

  /** The rate shown for today's counts: 100 exactly when every task of today is done, 0 when none is. */
  lemma TodayProgress(all: seq<Task>, today: string, filter: string)
    ensures var done := DoneCount(all, today, filter);
            var total := done + RemainingCount(all, today, filter);
            && (total > 0 && RemainingCount(all, today, filter) == 0 ==> ProgressRate(done, total) == 100)
            && (done == 0 ==> ProgressRate(done, total) == 0)
  {
    var done := DoneCount(all, today, filter);
    var total := done + RemainingCount(all, today, filter);
    var rate := ProgressRate(done, total);
    if total > 0 && done == total && rate < 100 {
      MultiplyMonotone(2 * total, rate, 99);
    }
    if done == 0 && rate > 0 {
      MultiplyMonotone(2 * total, 1, rate);
    }
  }
}
