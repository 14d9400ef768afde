/** What the route handlers read from a request: the session and form or query fields. */
module Requests {
  import opened Wrappers
  import opened Schema
  import opened Text

  /** `session?.user?.id` is set. */
  predicate SignedIn(session: Option<User>) {
    session.Some? && session.value.id != ""
  }

  /** A text field that is present and not empty. */
  predicate Given(field: Option<string>) {
    field.Some? && field.value != ""
  }

  /** The property an id parameter names: `parseInt` of the text, then a lookup by id. */
  function ParamProperty(param: string, properties: map<int, Property>): (r: Option<Property>)
    ensures r.Some? <==> JsParseInt(param).Some? && JsParseInt(param).value in properties
    ensures r.Some? ==> r.value == properties[JsParseInt(param).value]
  {
    match JsParseInt(param)
    case Some(id) => if id in properties then Some(properties[id]) else None
    case None => None
  }

  /** An id written out in decimal names exactly the property stored under it. */
  lemma ParamPropertyOfId(id: int, properties: map<int, Property>)
    ensures ParamProperty(IntToString(id), properties) == if id in properties then Some(properties[id]) else None
  {
    ParseIntOfIntToString(id);
  }
}
