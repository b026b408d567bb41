/**
 * The weekly board: an Overdue column followed by one column per day from Monday to Sunday of the
 * current week. Days are day numbers (see `Calendar.DayNumber`); `today` is the viewer's local date.
 */
module WeeklyPage {
  import opened Wrappers
  import opened Calendar
  import opened Seqs
  import opened TasksRoute

  const Narrow := "w-36"
  const InboxWide := "w-80"
  const DayWide := "w-72"

  /** The category filter shared with the settings: the stored value is used as is, and anything
      other than `All` behaves as `Work`. */
  predicate PassesFilter(filter: string, t: Task)
  {
    !IsDone(t) && (filter == "All" || t.cat == "Work")
  }

  /** `filterTasksByCat`: Done tasks are always dropped; under a filter other than `All` only
      tasks whose category is exactly `Work` remain. */
  function FilterTasksByCat(tasks: seq<Task>, filter: string): (r: seq<Task>)
    ensures forall t :: t in r <==> t in tasks && PassesFilter(filter, t)
    ensures forall t :: t in r ==> !IsDone(t)
    ensures filter != "All" ==> forall t :: t in r ==> t.cat == "Work"
    ensures r == Filter(tasks, t => PassesFilter(filter, t))
  {
    var active := Filter(tasks, t => !IsDone(t));
    FilterFilter(tasks, t => !IsDone(t), (t: Task) => t.cat == "Work", t => PassesFilter("Work", t));
    FilterCongruent(tasks, t => PassesFilter("All", t), t => !IsDone(t));
    if filter == "All" then active
    else
      FilterCongruent(tasks, t => PassesFilter("Work", t), t => PassesFilter(filter, t));
      Filter(active, (t: Task) => t.cat == "Work")
  }

  /** Category filtering keeps the order of the tasks it keeps. */
  lemma FilterTasksByCatKeepsOrder(tasks: seq<Task>, filter: string)
    ensures IsSubsequence(FilterTasksByCat(tasks, filter), tasks)
  {
    FilterIsSubsequence(tasks, t => PassesFilter(filter, t));
  }

  /** `startOfWeek(today, {weekStartsOn: 1})`: the Monday on or before today. */
  function WeekStart(today: Date): (monday: int)
    requires Valid(today)
    ensures Weekday(monday) == 0
    ensures monday <= DayNumber(today) < monday + 7
  {
    MondayOnOrBefore(DayNumber(today));
    DayNumber(today) - Weekday(DayNumber(today))
  }

  /** `weekDays`: seven consecutive days, Monday to Sunday, of the week that holds today. */
  function WeekDays(today: Date): (days: seq<int>)
    requires Valid(today)
    ensures |days| == 7
    ensures days[0] == WeekStart(today)
    ensures forall i :: 0 <= i < 7 ==> days[i] == days[0] + i && Weekday(days[i]) == i
    ensures DayNumber(today) in days
  {
    var monday := WeekStart(today);
    var days := seq(7, i => monday + i);
    forall i | 0 <= i < 7 ensures Weekday(days[i]) == i {
      WeekdaysFollow(monday, i);
    }
    assert days[DayNumber(today) - monday] == DayNumber(today);
    days
  }

  /** `!task.date`: a task without a date, or with an empty one. */
  predicate Undated(t: Task)
  {
    t.date.None? || t.date.value == ""
  }

  /** The day `parseISO` gives for a task's date; None when the task is undated or the text is not
      a date (an Invalid Date, which is neither the same day as nor before any day). */
  function TaskDay(t: Task): (day: Option<int>)
    ensures day.Some? <==> !Undated(t) && ParseIsoDate(t.date.value).Some?
    ensures day.Some? ==> day.value == DayNumber(ParseIsoDate(t.date.value).value)
  {
    if Undated(t) then None
    else match ParseIsoDate(t.date.value)
      case None => None
      case Some(d) => Some(DayNumber(d))
  }

  /** The test `getTasksForDay` applies before category filtering. */
  predicate OnDay(day: int, t: Task)
  {
    TaskDay(t) == Some(day)
  }

  /** The test `getInboxTasks` applies before category filtering. */
  predicate Overdue(monday: int, t: Task)
  {
    Undated(t) || (TaskDay(t).Some? && TaskDay(t).value < monday)
  }

  /** `getTasksForDay(day)`: the dated tasks that fall on that day, then category filtering. */
  function TasksForDay(tasks: seq<Task>, filter: string, day: int): (r: seq<Task>)
    ensures forall t :: t in r <==> t in tasks && PassesFilter(filter, t) && !Undated(t) && TaskDay(t) == Some(day)
    ensures |r| <= |tasks|
  {
    FilterTasksByCat(Filter(tasks, t => OnDay(day, t)), filter)
  }

  /** `getInboxTasks()`: undated tasks and tasks dated before this week's Monday, then category
      filtering. */
  function InboxTasks(tasks: seq<Task>, filter: string, today: Date): (r: seq<Task>)
    requires Valid(today)
    ensures forall t :: t in r <==>
      (t in tasks && PassesFilter(filter, t) && (Undated(t) || (TaskDay(t).Some? && TaskDay(t).value < WeekStart(today))))
    ensures |r| <= |tasks|
  {
    FilterTasksByCat(Filter(tasks, t => Overdue(WeekStart(today), t)), filter)
  }

  /** No task is in two columns: the Overdue column and the seven day columns are pairwise disjoint. */
  lemma ColumnsDisjoint(tasks: seq<Task>, filter: string, today: Date, i: int, j: int, t: Task)
    requires Valid(today) && 0 <= i < 7 && 0 <= j < 7
    requires t in TasksForDay(tasks, filter, WeekDays(today)[i])
    ensures t !in InboxTasks(tasks, filter, today)
    ensures t in TasksForDay(tasks, filter, WeekDays(today)[j]) <==> i == j
  {
  }

  /** A task that passes the filter and is dated within the week is in the column of its day. */
  lemma DatedTaskInItsColumn(tasks: seq<Task>, filter: string, today: Date, t: Task)
    requires Valid(today) && t in tasks && PassesFilter(filter, t)
    requires TaskDay(t).Some? && WeekStart(today) <= TaskDay(t).value < WeekStart(today) + 7
    ensures t in TasksForDay(tasks, filter, WeekDays(today)[TaskDay(t).value - WeekStart(today)])
  {
    var day := TaskDay(t).value;
    assert WeekDays(today)[day - WeekStart(today)] == day;
  }

  /** A task dated after Sunday, or whose date is not a date, appears in no column at all. */
  lemma UnplacedTasks(tasks: seq<Task>, filter: string, today: Date, t: Task)
    requires Valid(today)
    requires !Undated(t) && (TaskDay(t).None? || TaskDay(t).value >= WeekStart(today) + 7)
    ensures t !in InboxTasks(tasks, filter, today)
    ensures forall day :: day in WeekDays(today) ==> t !in TasksForDay(tasks, filter, day)
  {
  }

  /** The width of the Overdue column: narrow only when it is empty and compact mode is on. */
  function InboxWidth(inboxCount: nat, compactPast: bool): (width: string)
    ensures width == Narrow || width == InboxWide
    ensures width == Narrow <==> inboxCount == 0 && compactPast
  {
    if inboxCount == 0 && compactPast then Narrow else InboxWide
  }

  /** `isPast`: before today and not today, which on whole days is strictly before today. */
  predicate IsPast(day: int, today: Date)
    requires Valid(today)
  {
    day < DayNumber(today)
  }

  /** The width of a day column: narrow only when the day is past, its column is empty and compact
      mode is on. */
  function DayWidth(day: int, today: Date, dayCount: nat, compactPast: bool): (width: string)
    requires Valid(today)
    ensures width == Narrow || width == DayWide
    ensures width == Narrow <==> IsPast(day, today) && dayCount == 0 && compactPast
  {
    if IsPast(day, today) && dayCount == 0 && compactPast then Narrow else DayWide
  }

  /** Today's column and every later one keep their full width, whatever they hold. */
  lemma TodayAndLaterAreWide(tasks: seq<Task>, filter: string, today: Date, compactPast: bool, i: int)
    requires Valid(today) && 0 <= i < 7 && WeekDays(today)[i] >= DayNumber(today)
    ensures DayWidth(WeekDays(today)[i], today, |TasksForDay(tasks, filter, WeekDays(today)[i])|, compactPast) == DayWide
  {
  }
}
