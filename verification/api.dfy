/**
 * The requests the services hand to `apiCall`, and the shapes of list responses. The call
 * itself (fetch, headers, error text) is not modelled: its outcome is a `Result` that the
 * caller receives as a parameter.
 */
module Api {
  import opened JsValues

  datatype Method = GET | POST

  /** `apiCall(endpoint, {method, body: JSON.stringify(body)})`, before serialisation. */
  datatype Request = Request(verb: Method, endpoint: string, body: Option<Entries>)

  /**
   * The body of a list endpoint: a bare array, an object (of which only the fields that
   * hold arrays matter, by name), or anything else (null, a string, a number).
   */
  datatype ListBody<T> = ArrayBody(items: seq<T>) | ObjectBody(arrayFields: map<string, seq<T>>) | OtherBody
}
