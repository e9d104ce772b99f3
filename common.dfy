/** Identifiers, optional values and the response envelope shared by every controller. */
module Common {

  /** A document's ObjectId. Its textual form is abstracted away; whether the text a
      client put in a route parameter is a well-formed ObjectId is decided by a predicate
      `valid: Id -> bool` supplied to the handlers (mongoose's `isValidObjectId`). */
  type Id = nat

  datatype Option<+T> = None | Some(value: T)

  /** What a handler sends back: an `ApiResponse` (status, payload, message) on success,
      an `ApiError` (status, message) when it throws. */
  datatype Response<+T> =
    | Ok(status: nat, data: T, message: string)
    | Err(status: nat, message: string)

  const StatusOk: nat := 200
  const StatusCreated: nat := 201
  const StatusBadRequest: nat := 400
  const StatusForbidden: nat := 403
  const StatusNotFound: nat := 404

  /** JavaScript truthiness of an optional request-body string: `undefined`, `null`
      and `""` are falsy, every other string is truthy. */
  function Truthy(s: Option<string>): (b: bool)
    ensures s.None? ==> !b
    ensures s == Some("") ==> !b
    ensures s.Some? && |s.value| > 0 ==> b
  {
    s.Some? && s.value != ""
  }
}
