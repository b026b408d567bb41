/**
 * `POST /api/tasks/complete`: checks the configured database id and the task id, then sets the
 * task's State to Done and nothing else.
 */
module CompleteRoute {
  import opened Wrappers
  import opened Js
  import opened Notion

  const StatusPropertyName := "State"
  const DoneStatusValue := "Done"

  const DatabaseIdNotSet := "Database ID not set"
  const IdRequired := "Task ID is required"
  const Completed := "Task completed successfully"
  const CompleteFailed := "Failed to complete task on Notion"

  /** The one-key patch the route sends. */
  function DonePatch(): (p: Patch)
    ensures p.Keys == {"State"} && p["State"] == StatusPatch(Str("Done"))
  {
    map[StatusPropertyName := StatusPatch(Str(DoneStatusValue))]
  }

  datatype PostResult = PostResult(call: Option<UpdateCall>, response: Response<ApiBody>)

  /** `POST(request)`: `databaseId` is `process.env.NOTION_DATABASE_ID`; `body` is what
      `request.json()` gave; `outcome` is what the update call returns if it is made. */
  function Post(databaseId: Option<string>, body: RequestBody, outcome: Outcome<()>): (r: PostResult)
    ensures !IsSet(databaseId) ==> r == PostResult(None, Response(500, Error(DatabaseIdNotSet)))
    ensures IsSet(databaseId) && body.Malformed? ==> r == PostResult(None, Response(500, Error(CompleteFailed)))
    ensures IsSet(databaseId) && body.Object? && !Truthy(Field(body.fields, "id")) ==>
              r == PostResult(None, Response(400, Error(IdRequired)))
    ensures IsSet(databaseId) && body.Object? && Truthy(Field(body.fields, "id")) ==>
              && r.call == Some(UpdateCall(Field(body.fields, "id"), map["State" := StatusPatch(Str("Done"))]))
              && r.response == if outcome.Returned? then Response(200, Message(Completed))
                               else Response(500, Error(CompleteFailed))
    ensures r.call.Some? <==> r.response.status == 200 || (r.response.status == 500 && IsSet(databaseId) && body.Object?)
  {
    if !IsSet(databaseId) then PostResult(None, Response(500, Error(DatabaseIdNotSet)))
    else match body
      case Malformed(_) => PostResult(None, Response(500, Error(CompleteFailed)))
      case Object(f) =>
        var id := Field(f, "id");
        if !Truthy(id) then PostResult(None, Response(400, Error(IdRequired)))
        else
          var call := UpdateCall(id, DonePatch());
          match outcome
          case Returned(_) => PostResult(Some(call), Response(200, Message(Completed)))
          case Threw(_) => PostResult(Some(call), Response(500, Error(CompleteFailed)))
  }
}
