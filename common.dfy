/** Values shared by every route handler: optional request-body fields and the
    outcome a handler reports to the HTTP layer. */
module Common {

  /** A field of a JSON request body: absent (`undefined`) or present. */
  datatype Option<+T> = None | Some(value: T)

  /** What a handler answers. `Ok` is 200 or 201, `ValidationError` 400,
      `NotFound` 404, `Unauthorized` 401, and `StoreRejected` the 500 answer
      given when the store's schema refuses a document at `save`. */
  datatype Response<+T> =
    | Ok(value: T)
    | ValidationError
    | NotFound
    | Unauthorized
    | StoreRejected

  /** JavaScript truthiness of a text field: `undefined` and `""` are falsy,
      every other string is truthy. */
  predicate Present(field: Option<string>)
    ensures Present(field) <==> field != None && field != Some("")
  {
    field.Some? && field.value != ""
  }
}
