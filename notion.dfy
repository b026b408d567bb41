/**
 * The shapes exchanged with the hosted database service: property values as a database query
 * returns them, the property patches the routes send, and the outcome of a call into the client
 * library, which is foreign code and so is given as a parameter.
 */
module Notion {
  import opened Wrappers
  import opened Js

  /** A property of a returned page; the variant is the property's configured type. */
  datatype PropertyValue =
    | TitleValue(plainTexts: seq<string>)   // `title[i].plain_text`
    | StatusValue(status: Option<string>)   // `status?.name`; None when `status` is null
    | SelectValue(select: Option<string>)   // `select?.name`; None when `select` is null
    | MultiSelectValue(names: seq<string>)  // `multi_select.map(o => o.name)`
    | DateValue(start: Option<string>)      // `date?.start`; None when `date` is null
    | OtherValue                            // any other property type

  type Properties = map<string, PropertyValue>

  /** One element of `response.results`: `objectKind` (the `object` key) and `properties` are None when the key is absent. */
  datatype RawResult = RawResult(id: string, url: string, objectKind: Option<string>, properties: Option<Properties>)

  /** A property write, as the routes spell it. */
  datatype PropertyPatch =
    | TitlePatch(content: JsValue)          // `{ title: [{ text: { content } }] }`
    | StatusPatch(name: JsValue)            // `{ status: { name } }`
    | MultiSelectPatch(names: seq<string>)  // `{ multi_select: names.map(name => ({ name })) }`
    | DatePatch(start: Option<JsValue>)     // `{ date: { start } }`, or `{ date: null }` for None

  type Patch = map<string, PropertyPatch>

  /** `pages.update({ page_id, properties })`. */
  datatype UpdateCall = UpdateCall(pageId: JsValue, properties: Patch)

  /** `pages.create({ parent: { database_id }, properties })`. */
  datatype CreateCall = CreateCall(databaseId: Option<string>, properties: Patch)

  /** The body of a failed API call, as `error.body` carries it. */
  datatype ErrorBody = NoBody | BodyMessage(message: string) | UnparsableBody

  /** An exception thrown by the client library; an empty `message` stands for a missing one. */
  datatype Thrown = Thrown(message: string, isClientError: bool, body: ErrorBody)

  /** What awaiting a client-library call produced. */
  datatype Outcome<T> = Returned(value: T) | Threw(error: Thrown)
}
