/**
 * `GET /api/tasks`: one query for every task whose State is not Done, sorted by Date, and the
 * mapping of each returned page to the `CleanTask` record the views consume.
 */
module TasksRoute {
  import opened Wrappers
  import opened Js
  import opened Notion
  import opened Seqs

  /** The record the route returns for each page (`CleanTask`); the views read it as their `Task`. */
  datatype Task = Task(
    id: string,
    title: string,
    date: Option<string>,
    state: string,
    cat: string,
    subCats: seq<string>,
    theme: string,
    url: string)

  /** The views' test for a completed task: its state is exactly `Done`. */
  predicate IsDone(t: Task)
  {
    t.state == "Done"
  }

  /** `doneTasks` of the projects and monthly pages: exactly the Done tasks, in their order. */
  function DoneTasks(tasks: seq<Task>): (r: seq<Task>)
    ensures forall t :: t in r <==> t in tasks && t.state == "Done"
    ensures |r| <= |tasks|
  {
    Filter(tasks, IsDone)
  }

  /** The route's own guard: a result is mapped only if it carries `properties` and is a page. */
  predicate IsFullPage(r: RawResult)
  {
    r.properties.Some? && r.objectKind == Some("page")
  }

  function Prop(props: Properties, key: string): Option<PropertyValue>
  {
    if key in props then Some(props[key]) else None
  }

  /** `props.K?.multi_select?.map(c => c.name) || []`: the option names in order, or none. */
  function MultiSelectNames(p: Option<PropertyValue>): (names: seq<string>)
    ensures p.Some? && p.value.MultiSelectValue? ==> names == p.value.names
    ensures !(p.Some? && p.value.MultiSelectValue?) ==> names == []
  {
    match p
    case Some(MultiSelectValue(names)) => names
    case _ => []
  }

  /** The colour tag: `gray`, overwritten by `blue` when Work is a category, then by `green` when
      Life is, so Life wins over Work. */
  function Theme(cats: seq<string>): (theme: string)
    ensures theme == "green" <==> "Life" in cats
    ensures theme == "blue" <==> "Work" in cats && "Life" !in cats
    ensures theme == "gray" <==> "Work" !in cats && "Life" !in cats
  {
    var isWork := "Work" in cats;
    var isLife := "Life" in cats;
    var initial := "gray";
    var afterWork := if isWork then "blue" else initial;
    if isLife then "green" else afterWork
  }

  /** `p?.select?.name`, with `undefined` read as the empty string (both are falsy to `||`). */
  function SelectName(p: Option<PropertyValue>): string
  {
    match p
    case Some(SelectValue(Some(n))) => n
    case _ => ""
  }

  /** `p?.status?.name`, with `undefined` read as the empty string. */
  function StatusName(p: Option<PropertyValue>): string
  {
    match p
    case Some(StatusValue(Some(n))) => n
    case _ => ""
  }

  /** `props.State?.select?.name || props.State?.status?.name || 'Unknown'`. */
  function StateName(p: Option<PropertyValue>): (name: string)
    ensures name != ""
    ensures SelectName(p) != "" ==> name == SelectName(p)
    ensures SelectName(p) == "" && StatusName(p) != "" ==> name == StatusName(p)
    ensures SelectName(p) == "" && StatusName(p) == "" ==> name == "Unknown"
  {
    OrElse(OrElse(SelectName(p), StatusName(p)), "Unknown")
  }

  /** `props.Name?.title[0]?.plain_text || 'No Title'`. None stands for the TypeError the expression
      throws when `Name` exists but is not a title property (`title` is then `undefined`). */
  function TitleText(p: Option<PropertyValue>): (r: Option<string>)
    ensures r.None? <==> p.Some? && !p.value.TitleValue?
    ensures r.Some? ==> r.value != ""
    ensures (p.Some? && p.value.TitleValue? && |p.value.plainTexts| > 0 && p.value.plainTexts[0] != "")
            ==> r == Some(p.value.plainTexts[0])
    ensures (p.None? || (p.value.TitleValue? && (|p.value.plainTexts| == 0 || p.value.plainTexts[0] == "")))
            ==> r == Some("No Title")
  {
    match p
    case None => Some("No Title")
    case Some(TitleValue(texts)) => Some(OrElse(if |texts| > 0 then texts[0] else "", "No Title"))
    case Some(_) => None
  }

  /** `props.Date?.date?.start || null`. */
  function DateStart(p: Option<PropertyValue>): (r: Option<string>)
    ensures r.Some? <==> p.Some? && p.value.DateValue? && p.value.start.Some? && p.value.start.value != ""
    ensures r.Some? ==> r == p.value.start
  {
    match p
    case Some(DateValue(Some(s))) => if s != "" then Some(s) else None
    case _ => None
  }

  /** `cats[0] || ''`. */
  function PrimaryCat(cats: seq<string>): (cat: string)
    ensures |cats| > 0 ==> cat == cats[0]
    ensures |cats| == 0 ==> cat == ""
  {
    if |cats| > 0 then OrElse(cats[0], "") else ""
  }

  /** The mapping of one full page to a task; None when reading the title throws. */
  function MapPage(page: RawResult): (t: Option<Task>)
    requires IsFullPage(page)
    ensures t.None? <==> TitleText(Prop(page.properties.value, "Name")).None?
    ensures t.Some? ==>
      var props := page.properties.value;
      var cats := MultiSelectNames(Prop(props, "Cat"));
      && t.value.id == page.id
      && t.value.url == page.url
      && Some(t.value.title) == TitleText(Prop(props, "Name"))
      && t.value.date == DateStart(Prop(props, "Date"))
      && t.value.state == StateName(Prop(props, "State"))
      && t.value.cat == PrimaryCat(cats)
      && t.value.subCats == MultiSelectNames(Prop(props, "SubCat"))
      && t.value.theme == Theme(cats)
  {
    var props := page.properties.value;
    var cats := MultiSelectNames(Prop(props, "Cat"));
    var title := TitleText(Prop(props, "Name"));
    if title.None? then None
    else
      Some(Task(
        page.id,
        title.value,
        DateStart(Prop(props, "Date")),
        StateName(Prop(props, "State")),
        PrimaryCat(cats),
        MultiSelectNames(Prop(props, "SubCat")),
        Theme(cats),
        page.url))
  }

  /** `fullPages.map(...)`: every page mapped in order, or None if mapping any of them throws. */
  function MapAll(pages: seq<RawResult>): (r: Option<seq<Task>>)
    requires forall i :: 0 <= i < |pages| ==> IsFullPage(pages[i])
    ensures r.Some? <==> forall i :: 0 <= i < |pages| ==> MapPage(pages[i]).Some?
    ensures r.Some? ==> |r.value| == |pages| && forall i :: 0 <= i < |pages| ==> MapPage(pages[i]) == Some(r.value[i])
  {
    if pages == [] then Some([])
    else
      var head := MapPage(pages[0]);
      var tail := MapAll(pages[1..]);
      MapAllStep(pages, head, tail);
      if head.None? || tail.None? then None else Some([head.value] + tail.value)
  }

  /** The step of `MapAll`: the first page's result and the rest's decide the whole list's. */
  lemma MapAllStep(pages: seq<RawResult>, head: Option<Task>, tail: Option<seq<Task>>)
    requires |pages| > 0 && forall i :: 0 <= i < |pages| ==> IsFullPage(pages[i])
    requires head == MapPage(pages[0])
    requires tail.Some? <==> forall i :: 0 <= i < |pages| - 1 ==> MapPage(pages[1..][i]).Some?
    requires tail.Some? ==> |tail.value| == |pages| - 1 && forall i :: 0 <= i < |pages| - 1 ==> MapPage(pages[1..][i]) == Some(tail.value[i])
    ensures (head.Some? && tail.Some?) <==> forall i :: 0 <= i < |pages| ==> MapPage(pages[i]).Some?
    ensures head.Some? && tail.Some? ==>
      forall i :: 0 <= i < |pages| ==> MapPage(pages[i]) == Some(([head.value] + tail.value)[i])
  {
    assert forall i :: 1 <= i < |pages| ==> pages[i] == pages[1..][i - 1];
  }

  /** The query the route issues: State (a status property) not Done, ascending by Date, one page of results. */
  datatype Query = Query(databaseId: string, statusProperty: string, statusDoesNotEqual: string, sortProperty: string, ascending: bool)

  function ActiveTasksQuery(databaseId: string): Query
  {
    Query(databaseId, "State", "Done", "Date", true)
  }

  datatype TasksBody = TaskList(tasks: seq<Task>) | Failure(error: string)

  /** What the handler did: the query it issued, if any, and its response. */
  datatype GetResult = GetResult(query: Option<Query>, response: Response<TasksBody>)

  const MissingDatabaseId := "NOTION_DATABASE_ID is missing in environment variables."
  const UnknownFetchError := "An unknown error occurred while fetching tasks."

  /** The results that pass the route's guard, in order. */
  function FullPages(results: seq<RawResult>): (pages: seq<RawResult>)
    ensures forall i :: 0 <= i < |pages| ==> IsFullPage(pages[i])
    ensures forall r :: r in pages <==> r in results && IsFullPage(r)
    ensures IsSubsequence(pages, results)
  {
    var pages := Filter(results, IsFullPage);
    assert forall i :: 0 <= i < |pages| ==> pages[i] in pages;
    FilterIsSubsequence(results, IsFullPage);
    pages
  }

  /** `GET()`: `databaseId` is `process.env.NOTION_DATABASE_ID`; `outcome` is what the query returned. */
  function Get(databaseId: Option<string>, outcome: Outcome<seq<RawResult>>): (r: GetResult)
    ensures !IsSet(databaseId) ==> r == GetResult(None, Response(500, Failure(MissingDatabaseId)))
    ensures IsSet(databaseId) ==> r.query == Some(ActiveTasksQuery(databaseId.value))
    ensures r.response.status == 200 || r.response.status == 500
    ensures r.response.status == 200 <==>
              IsSet(databaseId) && outcome.Returned? && MapAll(FullPages(outcome.value)).Some?
    ensures r.response.status == 200 ==> r.response.body == TaskList(MapAll(FullPages(outcome.value)).value)
    ensures IsSet(databaseId) && outcome.Threw? ==>
              r.response.body == Failure(
                if outcome.error.isClientError then "Notion Error: " + outcome.error.message else UnknownFetchError)
    ensures IsSet(databaseId) && outcome.Returned? && MapAll(FullPages(outcome.value)).None? ==>
              r.response.body == Failure(UnknownFetchError)
  {
    if !IsSet(databaseId) then GetResult(None, Response(500, Failure(MissingDatabaseId)))
    else
      var query := Some(ActiveTasksQuery(databaseId.value));
      match outcome
      case Threw(e) =>
        GetResult(query, Response(500, Failure(if e.isClientError then "Notion Error: " + e.message else UnknownFetchError)))
      case Returned(results) =>
        var tasks := MapAll(FullPages(results));
        if tasks.None? then GetResult(query, Response(500, Failure(UnknownFetchError)))
        else GetResult(query, Response(200, TaskList(tasks.value)))
  }

  /** The listed tasks are the full pages of the query result, one task per page, in result order;
      every other result is dropped. */
  lemma {:induction false} ListedTasksFollowResults(databaseId: Option<string>, results: seq<RawResult>)
    requires Get(databaseId, Returned(results)).response.status == 200
    ensures var tasks := Get(databaseId, Returned(results)).response.body.tasks;
      && |tasks| == |Filter(results, IsFullPage)| <= |results|
      && (forall i :: 0 <= i < |tasks| ==> tasks[i].id == Filter(results, IsFullPage)[i].id)
      && IsSubsequence(Filter(results, IsFullPage), results)
  {
    var pages := FullPages(results);
    var tasks := MapAll(pages).value;
    forall i | 0 <= i < |tasks| ensures tasks[i].id == pages[i].id {
      assert MapPage(pages[i]) == Some(tasks[i]);
    }
    FilterIsSubsequence(results, IsFullPage);
  }

  /** The query excludes Done on the State status property; when every returned page satisfies
      that filter, no listed task is Done, since a status property has no select name to override it. */
  lemma {:induction false} NoDoneTaskListed(databaseId: Option<string>, results: seq<RawResult>)
    requires Get(databaseId, Returned(results)).response.status == 200
    requires forall i :: 0 <= i < |results| && IsFullPage(results[i]) ==>
               var state := Prop(results[i].properties.value, "State");
               state.Some? && state.value.StatusValue? && state.value.status != Some("Done")
    ensures forall t :: t in Get(databaseId, Returned(results)).response.body.tasks ==> t.state != "Done"
  {
    var pages := FullPages(results);
    var tasks := MapAll(pages).value;
    forall t | t in tasks ensures t.state != "Done" {
      var i :| 0 <= i < |tasks| && tasks[i] == t;
      assert MapPage(pages[i]) == Some(t);
      assert pages[i] in results;
    }
  }
}
