/** The part of Spring's ResponseEntity the gateway's callers observe:
    a status code and a body that may be null. */
module Web {
  import opened JavaLang

  const OK: int := 200
  const BAD_REQUEST: int := 400
  const UNAUTHORIZED: int := 401

  datatype ResponseEntity<+T> = ResponseEntity(status: int, body: Nullable<T>)
}
