/**
 * `POST /api/update-task`: validates the task id and builds a property patch from the optional
 * `name`, `status` and `date` fields, then updates the page only if the patch has any key.
 */
module UpdateTaskRoute {
  import opened Wrappers
  import opened Js
  import opened Notion

  /** `date === 'null' || date === null || date === ''`: the values that clear the date. */
  predicate ClearsDate(date: JsValue)
  {
    date == Str("null") || date == Null || date == Str("")
  }

  /** The patch the route sends for the given fields: Name whenever `name` is not `undefined` (even
      when empty), State only for a truthy `status`, Date whenever `date` is not `undefined` (cleared
      or set), and no other key. */
  ghost predicate IsUpdatePatch(name: JsValue, status: JsValue, date: JsValue, properties: Patch)
  {
    && ("Name" in properties <==> name != Undefined)
    && ("Name" in properties ==> properties["Name"] == TitlePatch(name))
    && ("State" in properties <==> Truthy(status))
    && ("State" in properties ==> properties["State"] == StatusPatch(status))
    && ("Date" in properties <==> date != Undefined)
    && ("Date" in properties ==>
          properties["Date"] == if ClearsDate(date) then DatePatch(None) else DatePatch(Some(date)))
    && properties.Keys <= {"Name", "State", "Date"}
  }

  /** The `properties` dictionary, started empty and extended one key at a time. */
  method BuildPatch(name: JsValue, status: JsValue, date: JsValue) returns (properties: Patch)
    ensures IsUpdatePatch(name, status, date, properties)
  {
    properties := map[];
    if name != Undefined {
      properties := properties["Name" := TitlePatch(name)];
    }
    if Truthy(status) {
      properties := properties["State" := StatusPatch(status)];
    }
    if date != Undefined {
      if ClearsDate(date) {
        properties := properties["Date" := DatePatch(None)];
      } else {
        properties := properties["Date" := DatePatch(Some(date))];
      }
    }
  }

  /** The patch is empty exactly when no field asks for a change. */
  lemma PatchEmptyIff(name: JsValue, status: JsValue, date: JsValue, properties: Patch)
    requires IsUpdatePatch(name, status, date, properties)
    ensures properties == map[] <==> name == Undefined && !Truthy(status) && date == Undefined
  {
    if name == Undefined && !Truthy(status) && date == Undefined {
      assert properties.Keys == {};
    } else if name != Undefined {
      assert "Name" in properties;
    } else if Truthy(status) {
      assert "State" in properties;
    } else {
      assert "Date" in properties;
    }
  }

  const Updated := "Task updated successfully"
  const IdRequired := "Task ID is required"
  const UpdateFailed := "Failed to update task on Notion"

  /** `POST(request)`: `body` is what `request.json()` gave; `outcome` is what the update call
      would return if it is made. Returns the update call made, if any, and the response. */
  method Post(body: RequestBody, outcome: Outcome<()>) returns (call: Option<UpdateCall>, response: Response<ApiBody>)
    ensures body.Malformed? ==> call == None && response == Response(500, Error(OrElse(body.message, UpdateFailed)))
    ensures body.Object? && !Truthy(Field(body.fields, "id")) ==> call == None && response == Response(400, Error(IdRequired))
    ensures body.Object? && Truthy(Field(body.fields, "id")) ==>
      var f := body.fields;
      && (call.Some? <==> !(Field(f, "name") == Undefined && !Truthy(Field(f, "status")) && Field(f, "date") == Undefined))
      && (call.Some? ==> call.value.pageId == Field(f, "id")
                         && IsUpdatePatch(Field(f, "name"), Field(f, "status"), Field(f, "date"), call.value.properties))
      && response == if call.Some? && outcome.Threw?
                     then Response(500, Error(OrElse(outcome.error.message, UpdateFailed)))
                     else Response(200, Message(Updated))
  {
    if body.Malformed? {
      return None, Response(500, Error(OrElse(body.message, UpdateFailed)));
    }
    var f := body.fields;
    var id, name, status, date := Field(f, "id"), Field(f, "name"), Field(f, "status"), Field(f, "date");
    if !Truthy(id) {
      return None, Response(400, Error(IdRequired));
    }
    var properties := BuildPatch(name, status, date);
    PatchEmptyIff(name, status, date, properties);
    call := None;
    if |properties| > 0 {
      call := Some(UpdateCall(id, properties));
      if outcome.Threw? {
        return call, Response(500, Error(OrElse(outcome.error.message, UpdateFailed)));
      }
    }
    response := Response(200, Message(Updated));
  }
}
