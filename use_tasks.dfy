/**
 * The `useTasks` hook: one mutation at a time, gated by `processingId`. Each handler checks the
 * gate, marks the task as in flight, posts to an API route, and after the response clears the gate
 * and re-fetches only on success. A handler is split at its `await` into a Begin method (up to the
 * request) and `Settle` (after it), so the in-flight state can be observed.
 */
module UseTasks {
  import opened Wrappers

  const NewTaskId := "new"
  const CreateUrl := "/api/create"
  const UpdateUrl := "/api/update-task"
  const CompleteUrl := "/api/complete"

  const SaveFailedAlert := "保存に失敗しました"

  /** The JSON bodies the hook posts. */
  datatype Payload =
    | CreatePayload(name: string, date: Option<string>)
    | UpdatePayload(id: string, name: string, date: Option<string>, status: string)
    | CompletePayload(id: string)

  /** A `fetch(url, { method: 'POST', body: JSON.stringify(payload) })`. */
  datatype PostRequest = PostRequest(url: string, payload: Payload)

  /** What awaiting `fetch` gave: a response with its `ok` flag, or a rejection with its message. */
  datatype FetchOutcome = Responded(ok: bool) | Rejected(message: string)

  /** The request `handleSaveTask` sends: the placeholder id `new` creates a task from name and
      date; any other id updates that task with name, date and status. */
  function SaveRequest(taskId: string, name: string, date: Option<string>, status: string): (r: PostRequest)
    ensures taskId == NewTaskId <==> r.url == CreateUrl
    ensures taskId != NewTaskId <==> r.url == UpdateUrl
    ensures r.url == CreateUrl ==> r.payload == CreatePayload(name, date)
    ensures r.url == UpdateUrl ==> r.payload == UpdatePayload(taskId, name, date, status)
  {
    var isNew := taskId == NewTaskId;
    PostRequest(if isNew then CreateUrl else UpdateUrl,
                if isNew then CreatePayload(name, date) else UpdatePayload(taskId, name, date, status))
  }

  /** The request `handleComplete` sends: `{ id }` to the literal path `/api/complete`. */
  function CompleteRequest(id: string): (r: PostRequest)
    ensures r.url == CompleteUrl && r.payload.CompletePayload? && r.payload.id == id
  {
    PostRequest(CompleteUrl, CompletePayload(id))
  }

  /** The alert `handleSaveTask` raises after a failed request, if any. */
  function SaveAlert(outcome: FetchOutcome): (alert: Option<string>)
    ensures alert.None? <==> outcome == Responded(true)
    ensures outcome == Responded(false) ==> alert == Some(SaveFailedAlert)
    ensures outcome.Rejected? ==> alert == Some(outcome.message)
  {
    match outcome
    case Responded(ok) => if ok then None else Some(SaveFailedAlert)
    case Rejected(message) => Some(message)
  }

  class TaskActions {
    /** The id of the task whose mutation is in flight, or None (`null`). */
    var processingId: Option<string>

    constructor()
      ensures processingId == None
    {
      processingId := None;
    }

    /** `if (processingId) return;` is a truthiness test, so an empty id does not close the gate. */
    predicate Busy()
      reads this
    {
      processingId.Some? && processingId.value != ""
    }

    /** `handleSaveTask` up to its `fetch`: nothing happens while busy; otherwise the task's id is
        marked as in flight and the request for it is returned. */
    method BeginSave(taskId: string, name: string, date: Option<string>, status: string)
      returns (request: Option<PostRequest>)
      modifies this
      ensures old(Busy()) ==> request == None && processingId == old(processingId)
      ensures !old(Busy()) ==> processingId == Some(taskId) && request == Some(SaveRequest(taskId, name, date, status))
    {
      if Busy() {
        return None;
      }
      processingId := Some(taskId);
      request := Some(SaveRequest(taskId, name, date, status));
    }

    /** `handleComplete` up to its `fetch`. */
    method BeginComplete(id: string) returns (request: Option<PostRequest>)
      modifies this
      ensures old(Busy()) ==> request == None && processingId == old(processingId)
      ensures !old(Busy()) ==> processingId == Some(id) && request == Some(CompleteRequest(id))
    {
      if Busy() {
        return None;
      }
      processingId := Some(id);
      request := Some(CompleteRequest(id));
    }

    /** The rest of either handler: `fetchTasks()` is awaited only after an ok response, and the
        `finally` block clears the gate whatever happened. */
    method Settle(outcome: FetchOutcome) returns (refetch: bool)
      modifies this
      ensures processingId == None
      ensures refetch <==> outcome == Responded(true)
    {
      refetch := outcome == Responded(true);
      processingId := None;
    }

    /** A whole `handleSaveTask` call, run to completion: either it is refused by the gate and
        changes nothing, or it sends one request, and leaves the gate open again. */
    method HandleSaveTask(taskId: string, name: string, date: Option<string>, status: string, outcome: FetchOutcome)
      returns (request: Option<PostRequest>, refetch: bool, alert: Option<string>)
      modifies this
      ensures old(Busy()) ==> request == None && !refetch && alert == None && processingId == old(processingId)
      ensures !old(Busy()) ==>
        && request == Some(SaveRequest(taskId, name, date, status))
        && processingId == None
        && (refetch <==> outcome == Responded(true))
        && alert == SaveAlert(outcome)
    {
      request := BeginSave(taskId, name, date, status);
      if request.None? {
        return None, false, None;
      }
      refetch := Settle(outcome);
      alert := SaveAlert(outcome);
    }

    /** A whole `handleComplete` call, run to completion. */
    method HandleComplete(id: string, outcome: FetchOutcome) returns (request: Option<PostRequest>, refetch: bool)
      modifies this
      ensures old(Busy()) ==> request == None && !refetch && processingId == old(processingId)
      ensures !old(Busy()) ==>
        && request == Some(CompleteRequest(id))
        && processingId == None
        && (refetch <==> outcome == Responded(true))
    {
      request := BeginComplete(id);
      if request.None? {
        return None, false;
      }
      refetch := Settle(outcome);
    }
  }

  /** While one save is in flight a second one, or a completion, is refused and leaves the first
      one's id in place; once the first settles, the gate is open again. */
  method GateScenario(first: string, second: string, outcome: FetchOutcome) returns (refused: bool, reopened: bool)
    requires first != ""
    ensures refused && reopened
  {
    var actions := new TaskActions();
    var r1 := actions.BeginSave(first, "a", None, "INBOX");
    var r2 := actions.BeginSave(second, "b", None, "INBOX");
    var r3 := actions.BeginComplete(second);
    refused := r1.Some? && r2.None? && r3.None? && actions.processingId == Some(first);
    var refetch := actions.Settle(outcome);
    var r4 := actions.BeginComplete(second);
    reopened := r4 == Some(CompleteRequest(second)) && actions.processingId == Some(second);
  }
}
