/**
 * The responses the handlers send: a status code and the JSON body's fields.
 * `message` is a string, or, for the update handlers' validation errors, a
 * list of strings.
 */
module Http {
  import opened Wrappers

  const OK: nat := 200
  const CREATED: nat := 201
  const BAD_REQUEST: nat := 400
  const NOT_FOUND: nat := 404

  datatype Message = Says(text: string) | Lists(texts: seq<string>)

  /** A response whose body may carry `data`, `rows`, `count`, `operation` and `status`. */
  datatype Reply<D, R> = Reply(
    code: nat,
    message: Message,
    data: Option<D>,
    rows: Option<seq<R>>,
    count: Option<nat>,
    operation: Option<string>,
    status: Option<string>)

  /** A response whose body is `{ message: text }` alone. */
  function Plain<D, R>(code: nat, text: string): Reply<D, R> {
    Reply(code, Says(text), None, None, None, None, None)
  }
}
