/**
 * The projects page: the fiscal year (April to March) it shows, the split of the fetched tasks
 * into active and done lists, and the buttons that step the fiscal year.
 */
module ProjectsPage {
  import opened Calendar
  import opened Seqs
  import opened TasksRoute

  /** `getFiscalYear`: `getMonth()` counts from 0, so index 3 is April; January to March belong to
      the fiscal year that started the April before. */
  function FiscalYear(d: Date): (fy: int)
    ensures fy == d.year || fy == d.year - 1
    ensures fy == d.year <==> d.month >= 4
  {
    if d.month - 1 >= 3 then d.year else d.year - 1
  }

  /** The first day of a fiscal year, as the header shows it (`{fy}.4.1`). */
  function FirstDay(fy: int): (d: Date)
    ensures Valid(d)
  {
    Date(fy, 4, 1)
  }

  /** The last day of a fiscal year, as the header shows it (`{fy + 1}.3.31`). */
  function LastDay(fy: int): (d: Date)
    ensures Valid(d)
  {
    Date(fy + 1, 3, 31)
  }

  /** Every date lies in the range the header shows for its fiscal year, and in no other year's. */
  lemma FiscalYearWindow(d: Date, fy: int)
    requires Valid(d)
    ensures fy == FiscalYear(d) <==> OnOrBefore(FirstDay(fy), d) && OnOrBefore(d, LastDay(fy))
  {
  }

  /** Consecutive fiscal years meet: the day after one year's last day is the next year's first day. */
  lemma FiscalYearsAdjacent(fy: int)
    ensures NextDay(LastDay(fy)) == FirstDay(fy + 1)
  {
  }

  predicate IsCanceled(t: Task)
  {
    t.state == "Canceled"
  }

  predicate IsActive(t: Task)
  {
    !IsDone(t) && !IsCanceled(t)
  }

  /** `activeTasks`: neither Done nor Canceled, in fetched order. */
  function ActiveTasks(tasks: seq<Task>): (r: seq<Task>)
    ensures forall t :: t in r <==> t in tasks && t.state != "Done" && t.state != "Canceled"
  {
    Filter(tasks, IsActive)
  }

  /** The two lists never share a task, a Canceled task is in neither, and together with the
      Canceled tasks they account for every fetched task exactly once. */
  lemma {:induction false} ActiveDonePartition(tasks: seq<Task>)
    ensures forall t :: !(t in ActiveTasks(tasks) && t in DoneTasks(tasks))
    ensures forall t :: IsCanceled(t) ==> t !in ActiveTasks(tasks) && t !in DoneTasks(tasks)
    ensures |ActiveTasks(tasks)| + |DoneTasks(tasks)| + |Filter(tasks, IsCanceled)| == |tasks|
  {
    var notDone := Filter(tasks, t => !IsDone(t));
    FilterPartition(tasks, IsDone, t => !IsDone(t));
    FilterPartition(notDone, IsCanceled, t => !IsCanceled(t));
    FilterFilter(tasks, t => !IsDone(t), t => !IsCanceled(t), IsActive);
    FilterFilter(tasks, t => !IsDone(t), IsCanceled, IsCanceled);
  }

  /** The fiscal year the page shows; the arrows step it. */
  class ProjectsView {
    var currentFY: int

    /** The page opens on the fiscal year of today. */
    constructor(today: Date)
      ensures currentFY == FiscalYear(today)
    {
      currentFY := FiscalYear(today);
    }

    /** `prevFY`. */
    method PrevFY()
      modifies this
      ensures currentFY == old(currentFY) - 1
    {
      currentFY := currentFY - 1;
    }

    /** `nextFY`. */
    method NextFY()
      modifies this
      ensures currentFY == old(currentFY) + 1
    {
      currentFY := currentFY + 1;
    }
  }
}
