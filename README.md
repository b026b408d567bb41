# woche: a Dafny model of the task dashboard's rules

woche is a Next.js dashboard over a Notion task database. This project models the deterministic
rules the dashboard is built on and proves properties of them:

- **`GET /api/tasks`**: the one query the route issues (State is not Done, sorted by Date). It also
  covers the `isFullPage` guard and the mapping of each page to a task record: title default, date
  or null, state from select then status then `Unknown`, first category, sub-categories, and a
  colour theme.
- **The mutation routes**:
  - `POST /api/update-task` builds a property patch key by key and updates only a non-empty patch.
  - `POST /api/create` creates a default record (title default, INBOX, Work, Task) with a Date only
    when one is given.
  - `POST /api/tasks/complete` sets State to Done and nothing else.

  Each route's 400 and 500 outcomes are modelled.
- **The `useTasks` hook**: a class holding `processingId`. Its methods check the gate, mark the
  task as in flight, choose the endpoint and payload, and clear the gate after the response.
- **The Basic authentication middleware** (the Basic scheme of RFC 7617): a decision that is
  either "next" or the 401 challenge.
- **The page selectors**:
  - the weekly board's Overdue column and Monday-to-Sunday columns, with their widths;
  - the home page's focus list, counts and progress rate;
  - the projects page's fiscal year, active/done split and year stepping;
  - the monthly page's Done statistics, daily histogram, Daily Peak and month stepping.

Support modules:

| module | what it provides |
|---|---|
| `Wrappers` | `Option` |
| `Seqs` | `filter` and counting lemmas about it |
| `Text` | JavaScript `split` on one character; zero-padded digits |
| `Calendar` | proleptic Gregorian dates: day numbers counted from 0001-01-01, a Monday; `yyyy-MM-dd` rendering and parsing; `addMonths` |
| `Js` | JavaScript values and truthiness; request bodies and JSON responses |
| `Notion` | raw page shapes, property patches, and the outcome of a Notion call |
| `Base64` | RFC 4648 section 4 encoding and decoding of well-formed input |

Every Notion call is a parameter: the outcome it returns or the error it throws. The model returns
the call a handler issues, so "no call is made" can be stated.

The hook posts completions to the literal path `/api/complete`, and the model keeps that path. The
completion route modelled here lives in `app/api/tasks/complete/route.ts`. An `app/api/complete`
route is not part of this model.

The projects and monthly pages send `fiscalYear`, `catTag` and `month` query parameters. `GET`
reads none of them, and it never returns a Done task (`TasksRoute.NoDoneTaskListed`). The pages'
Done lists and statistics are therefore modelled over whatever list they receive.

## Model

| member | source | states |
|---|---|---|
| TasksRoute.MultiSelectNames | app/api/tasks/route.ts:101 | the multi-select option names in order; `[]` when the property is absent or not a multi-select |
| TasksRoute.Theme | app/api/tasks/route.ts:83-90 | `green` iff Life is a category (even with Work); `blue` iff Work without Life; `gray` iff neither |
| TasksRoute.StateName | app/api/tasks/route.ts:92-93 | the non-empty select name if any, else the non-empty status name, else `Unknown`; never empty |
| TasksRoute.TitleText | app/api/tasks/route.ts:97 | throws (None) iff Name exists but is not a title; otherwise the first segment's non-empty text, or `No Title` when Name is absent, has no segment or an empty one |
| TasksRoute.DateStart | app/api/tasks/route.ts:98 | the date's start when it is a non-empty string, otherwise null |
| TasksRoute.PrimaryCat | app/api/tasks/route.ts:100 | the first category, or `""` when there is none |
| TasksRoute.MapPage | app/api/tasks/route.ts:72-104 | fails iff reading the title throws; otherwise every field of the task as the rules above give it, with id and url copied from the page |
| TasksRoute.MapAll | app/api/tasks/route.ts:72-105 | succeeds iff every page maps; then the tasks correspond one-to-one and in order to the pages |
| TasksRoute.FullPages | app/api/tasks/route.ts:67-69 | a result is kept iff it passes `isFullPage` (a page with properties), and the kept results keep their order |
| TasksRoute.Get | app/api/tasks/route.ts:33-122 | missing database id gives 500 and no query; otherwise exactly the State≠Done/Date-ascending query; 200 iff the query returned and every page mapped, with the mapped list; a Notion client error gives `Notion Error: <message>`; any other failure gives the fixed unknown-error text |
| TasksRoute.ListedTasksFollowResults | app/api/tasks/route.ts:67-72 | on 200, the tasks are the results that pass `isFullPage`, one per page, in result order, and at most as many as the results |
| TasksRoute.NoDoneTaskListed | app/api/tasks/route.ts:44-58 | when the returned pages satisfy the query's State≠Done filter, no listed task has state Done |
| TasksRoute.DoneTasks | app/projects/page.tsx:53 | exactly the tasks whose state is `Done`, as on the projects and monthly pages |
| UpdateTaskRoute.BuildPatch | app/api/update-task/route.ts:18-54 | Name present iff `name !== undefined` (empty string included); State iff `status` is truthy; Date iff `date !== undefined`, cleared for `null`, `""` and `"null"` and set otherwise; no other key |
| UpdateTaskRoute.PatchEmptyIff | app/api/update-task/route.ts:57-62 | the patch is empty iff `name` and `date` are undefined and `status` is falsy |
| UpdateTaskRoute.Post | app/api/update-task/route.ts:7-73 | an unreadable body gives 500 with its message; a falsy id gives 400 and no update; otherwise an update with the patch is made iff the patch is non-empty; a thrown update gives 500 with its message or the fixed text; every other case gives 200 |
| CreateRoute.BuildProperties | app/api/create/route.ts:12-31 | keys Name, State, Cat, SubCat, plus Date iff `date` is truthy; title is `name` when truthy else `新規タスク`; State INBOX, Cat [Work], SubCat [Task] |
| CreateRoute.CreateRecordDefaults | app/api/create/route.ts:14-24 | whatever the input, State is INBOX and the title is never falsy |
| CreateRoute.Post | app/api/create/route.ts:8-48 | an unreadable body rejects the handler (no call); otherwise one create call with the record above; success returns `{id}` of the created page; failure gives 500 with the error message and the error body's message, or `No detail` without a body; an error body that is not JSON rejects the handler |
| CompleteRoute.DonePatch | app/api/tasks/complete/route.ts:9-10 | exactly one key, State, set to status Done |
| CompleteRoute.Post | app/api/tasks/complete/route.ts:13-48 | an unset database id gives 500 before the body is read; an unreadable body gives the fixed 500 and no update; a falsy id gives 400 and no update; otherwise one update of that page with the Done patch, then 200 or the fixed 500 message |
| UseTasks.SaveRequest | hooks/useTasks.ts:20-29 | id `new` posts `{name, date}` to `/api/create`; any other id posts `{id, name, date, status}` to `/api/update-task` |
| UseTasks.CompleteRequest | hooks/useTasks.ts:51-55 | posts `{id}` to the literal path `/api/complete` |
| UseTasks.SaveAlert | hooks/useTasks.ts:37-40 | no alert iff the response was ok; a non-ok response alerts the fixed save-failed text; a rejected fetch alerts its own message |
| UseTasks.TaskActions.constructor | hooks/useTasks.ts:8 | the gate starts open (`processingId` null) |
| UseTasks.TaskActions.BeginSave | hooks/useTasks.ts:17-18 | while busy nothing changes and no request is sent; otherwise `processingId` becomes the task's id and the save request is returned |
| UseTasks.TaskActions.BeginComplete | hooks/useTasks.ts:48-49 | while busy nothing changes; otherwise `processingId` becomes the id and the completion request is returned |
| UseTasks.TaskActions.Settle | hooks/useTasks.ts:37-43 | `processingId` is null again, whatever the outcome; re-fetch iff the response was ok |
| UseTasks.TaskActions.HandleSaveTask | hooks/useTasks.ts:11-44 | a refused call changes nothing; an accepted one sends exactly the save request, ends with the gate open, re-fetches iff ok, and alerts iff not ok |
| UseTasks.TaskActions.HandleComplete | hooks/useTasks.ts:47-63 | a refused call changes nothing; an accepted one sends the completion request, ends with the gate open and re-fetches iff ok |
| UseTasks.GateScenario | hooks/useTasks.ts:17-18 | with one save in flight, a second save and a completion are refused and the first id stays; after it settles, a new call is accepted |
| Middleware.RespondUnauthorized | middleware.ts:58-65 | status 401 with `WWW-Authenticate: Basic realm="Secure Area"` |
| Middleware.Decide | middleware.ts:20-55 | allow whenever either secret is unset or empty; 401 without a header; otherwise allow iff the scheme is exactly `Basic`, the token is non-empty, and the decoded text's first and second colon-separated fields equal user and password; every rejection is the 401 challenge |
| Middleware.UnconfiguredIsOpen | middleware.ts:26-29 | with a secret unset or empty, every request is allowed |
| Middleware.BasicCredentialsGranted | middleware.ts:39-50 | for colon-free ASCII credentials sent as RFC 7617 prescribes, and a decoder that inverts the encoding of that header, access is granted iff both equal the configured secrets |
| Middleware.ColonPasswordNeverGranted | middleware.ts:46-48 | a configured password containing `:` is never matched, whatever the request |
| Middleware.UserAndPasswordAtFirstColon | middleware.ts:46 | the user-id ends at the first colon and the password is the rest, colons included |
| Middleware.DecideAtFirstColon | middleware.ts:20-55 | the same decision with the credentials split at the first colon |
| Middleware.AnyPasswordGrantedAtFirstColon | middleware.ts:46-48 | split at the first colon, a request is granted iff user-id and password, colons included, equal the secrets |
| Base64.Encode | middleware.ts:45 | four characters per three bytes, rounded up |
| Base64.EncodeAlphabet | middleware.ts:39 | encoded text contains no space and no colon |
| Base64.DecodeEncode | middleware.ts:45 | decoding the encoding of any bytes gives them back |
| Base64.DecodeTextEncode | middleware.ts:45 | decoding the encoding of ASCII text, read back as text, gives the text |
| Middleware.ReferenceDecoderFaithful | middleware.ts:45 | the RFC 4648 reference decoder meets the condition `BasicCredentialsGranted` places on `decode` |
| Text.Split | middleware.ts:39 | at least one field, none containing the separator |
| Text.JoinSplit | middleware.ts:46 | joining the fields with the separator gives the text back |
| Text.FirstTwoFields | middleware.ts:39-46 | the destructured first and second fields of a split on one character (the space in the header, then the colon in the decoded text): neither contains the separator; the second exists iff the separator occurs, and then the text begins with first, separator, second, and the second ends at the next separator or at the end of the text; otherwise the first is the whole text |
| Text.SplitPrefix | middleware.ts:39 | a separator-free prefix followed by the separator is the first field |
| WeeklyPage.FilterTasksByCat | app/weekly/page.tsx:97-102 | keeps exactly the non-Done tasks, and under any filter other than `All` only category `Work`; equal to one filter by the combined test |
| WeeklyPage.FilterTasksByCatKeepsOrder | app/weekly/page.tsx:97-102 | the result is an order-preserving subsequence of the input |
| WeeklyPage.WeekStart | app/weekly/page.tsx:51 | a Monday, on or at most six days before today |
| WeeklyPage.WeekDays | app/weekly/page.tsx:51-54 | seven consecutive days, Monday to Sunday, including today |
| WeeklyPage.TaskDay | app/weekly/page.tsx:106-107 | a day iff the task has a non-empty date that parses, and then the day number of the parsed date |
| WeeklyPage.TasksForDay | app/weekly/page.tsx:104-110 | a task is in a day's column iff it passes the category filter, has a date, and its date is that day |
| WeeklyPage.InboxTasks | app/weekly/page.tsx:112-118 | a task is in the Overdue column iff it passes the filter and is undated or dated strictly before this Monday |
| WeeklyPage.ColumnsDisjoint | app/weekly/page.tsx:104-118 | no task is in two day columns, or in a day column and the Overdue column |
| WeeklyPage.DatedTaskInItsColumn | app/weekly/page.tsx:104-110 | a filtered task dated within the week is in its day's column |
| WeeklyPage.UnplacedTasks | app/weekly/page.tsx:104-118 | a task dated after Sunday, or with an unparseable date, is in no column |
| WeeklyPage.InboxWidth | app/weekly/page.tsx:214-215 | narrow iff the column is empty and compact mode is on |
| WeeklyPage.DayWidth | app/weekly/page.tsx:239-245 | narrow iff the day is before today, its column is empty and compact mode is on |
| WeeklyPage.TodayAndLaterAreWide | app/weekly/page.tsx:239-245 | today's column and later ones are never narrowed |
| HomePage.FetchedTasks | app/page.tsx:37 | an array is kept as is; anything else becomes `[]` |
| HomePage.TodayTasks | app/page.tsx:82-84 | exactly the tasks dated today that pass the category filter |
| HomePage.DisplayTasks | app/page.tsx:74-79 | exactly the tasks dated today, not Done, that pass the category filter |
| HomePage.TodayCounts | app/page.tsx:85-89 | done + remaining = today's tasks, and the list shows exactly the remaining count |
| HomePage.ProgressRate | app/page.tsx:89-91 | 0 with no task today; otherwise the nearest integer to done·100/total, halves up, and within [0, 100] |
| HomePage.TodayProgress | app/page.tsx:89-91 | 100 when every task of today is done, 0 when none is |
| ProjectsPage.FiscalYear | app/projects/page.tsx:17-19 | the year for April to December, the year before for January to March |
| ProjectsPage.FiscalYearWindow | app/projects/page.tsx:17-19 | a year is a date's fiscal year iff the date lies in its displayed April 1 to March 31 range |
| ProjectsPage.FiscalYearsAdjacent | app/projects/page.tsx:71 | the day after a fiscal year's last day is the next one's first day |
| ProjectsPage.ActiveTasks | app/projects/page.tsx:50-52 | exactly the tasks neither Done nor Canceled |
| ProjectsPage.ActiveDonePartition | app/projects/page.tsx:50-53 | active and done never overlap; Canceled tasks are in neither; active + done + canceled counts = all tasks |
| ProjectsPage.ProjectsView.constructor | app/projects/page.tsx:21 | the page opens on today's fiscal year |
| ProjectsPage.ProjectsView.PrevFY | app/projects/page.tsx:55 | the fiscal year goes down by exactly one |
| ProjectsPage.ProjectsView.NextFY | app/projects/page.tsx:56 | the fiscal year goes up by exactly one |
| MonthlyPage.WorkLifeBound | app/monthly/page.tsx:50-52 | Work-done + Life-done ≤ the number of Done tasks |
| MonthlyPage.DaysOfMonth | app/monthly/page.tsx:55-58 | one valid date per day of the month, the 1st to the last, in order |
| MonthlyPage.DaysOfMonthConsecutive | app/monthly/page.tsx:55-58 | each listed day is the day after the previous one |
| MonthlyPage.CountOn | app/monthly/page.tsx:62 | a day's count never exceeds the Done tasks |
| MonthlyPage.DailyStats | app/monthly/page.tsx:60-64 | one entry per day of the month in order; its string is that day rendered `yyyy-MM-dd` (and parses back to it); its count is the Done tasks dated exactly that string; its label is the unpadded day |
| MonthlyPage.DayStringsDistinct | app/monthly/page.tsx:60-61 | different days have different date strings |
| MonthlyPage.TotalCountsCharted | app/monthly/page.tsx:60-64 | over distinct day strings, the counts sum to the number of tasks dated on one of those days |
| MonthlyPage.DailyTotalBound | app/monthly/page.tsx:60-64 | the daily counts sum to at most the number of Done tasks |
| MonthlyPage.MaxDailyCount | app/monthly/page.tsx:66 | at least 1, at least every count, and equal to some count unless it is 1 |
| MonthlyPage.DailyPeakShown | app/monthly/page.tsx:153-155 | Daily Peak is 0 iff there is no Done task; otherwise it is `maxDailyCount`, and it bounds every count |
| MonthlyPage.MonthlyView.constructor | app/monthly/page.tsx:26 | the page opens on today |
| MonthlyPage.MonthlyView.PrevMonth | app/monthly/page.tsx:69 | `subMonths(·, 1)`: exactly one calendar month back, day clamped |
| MonthlyPage.MonthlyView.NextMonth | app/monthly/page.tsx:70 | `addMonths(·, 1)`: exactly one calendar month on, day clamped |
| Calendar.ParseIsoDate | app/weekly/page.tsx:107 | a date only when the text begins with that date rendered `yyyy-MM-dd` (a real day in years 0 to 9999) and either ends there or goes on with `T` and a time `parseISO` accepts |
| Calendar.ParseTimestamp | app/weekly/page.tsx:107 | a rendered date followed by `T` and an accepted time parses to that date |
| Calendar.MalformedTimeRejected | app/weekly/page.tsx:107 | a date followed by `T` and text that is not a time, or an hour of 25, is an invalid date |
| Calendar.Format | app/monthly/page.tsx:61 | ten characters, with dashes at positions 4 and 7 |
| Calendar.ParseFormat | app/monthly/page.tsx:61 | parsing a rendered date gives the date back |
| Calendar.FormatInjective | app/monthly/page.tsx:61 | two dates render alike iff they are equal |
| Calendar.DayNumberOrder | app/weekly/page.tsx:115 | calendar order and day-number order agree |
| Calendar.NextDayNumber | app/weekly/page.tsx:52-53 | the next day has the next day number |
| Calendar.AddMonths | app/monthly/page.tsx:69-70 | a valid date exactly n months on, the day clamped to the target month's length |
| Calendar.AddMonthsBack | app/monthly/page.tsx:69-70 | n months on and n back returns the same date when the day is at most 28 |

## Left out

- Notion client calls (`databases.query`, `pages.update`, `pages.create`) are foreign. Each is a parameter giving the value returned or the error thrown. `NextResponse` is a status and a body. The framework's response to a rejected handler is a fixed 500 with an empty body.
- Request bodies are either unreadable or an object. A body that is not JSON, or is `null`, is unreadable: `request.json()` rejects, or destructuring `null` throws. Any other JSON value that is not an object (a number, a string, a boolean or an array) is the empty object, because each field read from it is `undefined`. A field whose value is itself an object or an array is not modelled: field values are JSON scalars.
- Browser `fetch`, `setInterval` polling, `localStorage` and `window` listeners are not modelled. The settings they deliver (the category filter and compact mode) are parameters. A stored filter is any string; every value other than `All` filters to `Work`, as the code does.
- React's asynchronous state updates and stale closures are not modelled. The `processingId` gate is sequential, and each hook handler is split at its `await`.
- Time of day and time zones: dates are local calendar days. `parseISO` on a string with a time zone offset may fall on another local day, and that shift is not modelled.
- Calendar.ParseIsoDate: the date part is only `yyyy-MM-dd`. The other date forms `parseISO` accepts count as invalid dates: compact `yyyyMMdd`, year or month only, week and ordinal dates, a space instead of `T`, and a zone directly after the date. In the time part, a fraction is accepted only on its last unit. `24:00` is accepted but does not roll over to the next day.
- Calendar.Format: renders four-digit years only (0 to 9999). MonthlyPage.DailyStats requires such a month.
- HomePage.ProgressRate: computed in exact rational arithmetic. Floating-point `done / total * 100` can round differently from the exact value.
- Floating-point display values are not modelled: `yearProgress`, the week number, the Work/Life bar widths and the histogram bar heights.
- Middleware.Decide: Node's lenient base64 decoder and its UTF-8 text conversion are a `decode` parameter. `BasicCredentialsGranted` assumes only that `decode` inverts RFC 4648 encoding on the header sent. `Middleware.ReferenceDecoderFaithful` shows that the reference decoder `Base64.DecodeText` meets that condition for every ASCII text. That decoder reads bytes as ASCII rather than UTF-8, and gives the empty text for input that is not well-formed, where Node's decoder is lenient.
- The middleware's `matcher` path pattern is routing configuration and is not modelled.
- CreateRoute.Post: a failure whose body parses but has no `message` yields an undefined `detail`, which JSON omits. The model treats such a body as carrying a message.
- The views' `Task` type from components/TaskModal.tsx has `name` and `summary` fields, while the route emits `title` and no `summary`. The model uses the route's record, and no selector reads those two fields.
- components/TaskModal.tsx, components/Sidebar.tsx, components/ClientLayout.tsx and app/layout.tsx are presentation only, and app/focus/page.tsx shows only display statistics. None of them is part of this model.

## Findings

| source | as written | input that shows it | evidently intended | confidence | as-written member | corrected member |
|---|---|---|---|---|---|---|
| middleware.ts:46-48 | the decoded credentials are split at every colon and only the first two fields are compared, so a configured password containing `:` can never match | `BASIC_AUTH_USER=u`, `BASIC_AUTH_PASSWORD=a:b`; header `Basic ` + base64 of `u:a:b` is refused with 401 | split at the first colon only (section 2 of RFC 7617: the user-id cannot contain a colon, the password can), so the request is allowed | high (proved on the model; not executed) | Middleware.ColonPasswordNeverGranted | Middleware.DecideAtFirstColon (proved by Middleware.AnyPasswordGrantedAtFirstColon) |
