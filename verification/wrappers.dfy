/** Option and Result values used across the model in place of
    `undefined`/`null` returns and thrown errors. */
module Wrappers {

  datatype Option<+T> = None | Some(value: T)

  datatype Result<+R, +E> = Success(value: R) | Failure(error: E)

  /** JavaScript truthiness of an optional string: present and non-empty. */
  predicate Truthy(o: Option<string>)
  {
    o.Some? && o.value != ""
  }

  /** `x || null` on an optional string: keeps a truthy value, else null. */
  function OrNullIfEmpty(o: Option<string>): (r: Option<string>)
    ensures r.Some? <==> Truthy(o)
    ensures r.Some? ==> r == o
  {
    if Truthy(o) then o else None
  }
}
