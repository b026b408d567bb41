/**
 * `POST /api/create`: a new page with a fixed default record (title default, INBOX, Work/Task)
 * and a Date only when one is given.
 */
module CreateRoute {
  import opened Wrappers
  import opened Js
  import opened Notion

  const DefaultTitle := "新規タスク"

  /** The record the route creates: a title (the given name, or the default when it is falsy), the
      fixed INBOX / Work / Task values, and a Date exactly when `date` is truthy. */
  ghost predicate IsCreateRecord(name: JsValue, date: JsValue, properties: Patch)
  {
    && properties.Keys == {"Name", "State", "Cat", "SubCat"} + (if Truthy(date) then {"Date"} else {})
    && properties["Name"] == TitlePatch(if Truthy(name) then name else Str(DefaultTitle))
    && properties["State"] == StatusPatch(Str("INBOX"))
    && properties["Cat"] == MultiSelectPatch(["Work"])
    && properties["SubCat"] == MultiSelectPatch(["Task"])
    && (Truthy(date) ==> properties["Date"] == DatePatch(Some(date)))
  }

  /** The literal default record, then `properties['Date']` added in place when `date` is truthy. */
  method BuildProperties(name: JsValue, date: JsValue) returns (properties: Patch)
    ensures IsCreateRecord(name, date, properties)
  {
    properties := map[
      "Name" := TitlePatch(if Truthy(name) then name else Str(DefaultTitle)),
      "State" := StatusPatch(Str("INBOX")),
      "Cat" := MultiSelectPatch(["Work"]),
      "SubCat" := MultiSelectPatch(["Task"])];
    if Truthy(date) {
      properties := properties["Date" := DatePatch(Some(date))];
    }
  }

  /** Whatever the input, the record is INBOX, Work and Task, and its title is never empty. */
  lemma CreateRecordDefaults(name: JsValue, date: JsValue, properties: Patch)
    requires IsCreateRecord(name, date, properties)
    ensures properties["State"].name == Str("INBOX")
    ensures Truthy(properties["Name"].content)
    ensures !Truthy(name) ==> properties["Name"].content == Str(DefaultTitle)
  {
  }

  /** `POST(req)`: `databaseId` is the module-level `process.env.NOTION_DATABASE_ID!` (not checked);
      `outcome` is what the create call returns (the new page's id) if it is made. The body is
      read before the `try`, so a body that is not JSON rejects the handler's promise. */
  method Post(body: RequestBody, databaseId: Option<string>, outcome: Outcome<string>)
    returns (call: Option<CreateCall>, response: Response<ApiBody>)
    ensures body.Malformed? ==> call == None && response == UnhandledRejection
    ensures body.Object? ==>
      && call.Some? && call.value.databaseId == databaseId
      && IsCreateRecord(Field(body.fields, "name"), Field(body.fields, "date"), call.value.properties)
    ensures body.Object? && outcome.Returned? ==> response == Response(200, CreatedId(outcome.value))
    ensures body.Object? && outcome.Threw? ==>
      response == match outcome.error.body
                  case NoBody => Response(500, ErrorWithDetail(outcome.error.message, "No detail"))
                  case BodyMessage(m) => Response(500, ErrorWithDetail(outcome.error.message, m))
                  case UnparsableBody => UnhandledRejection
  {
    if body.Malformed? {
      return None, UnhandledRejection;
    }
    var properties := BuildProperties(Field(body.fields, "name"), Field(body.fields, "date"));
    call := Some(CreateCall(databaseId, properties));
    match outcome {
      case Returned(id) =>
        response := Response(200, CreatedId(id));
      case Threw(e) =>
        match e.body {
          case NoBody => response := Response(500, ErrorWithDetail(e.message, "No detail"));
          case BodyMessage(m) => response := Response(500, ErrorWithDetail(e.message, m));
          case UnparsableBody => response := UnhandledRejection;
        }
    }
  }
}
