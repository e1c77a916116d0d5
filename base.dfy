/** Shared vocabulary of the backend and client models: optional values,
    results with an error, and document identifiers. */
module Base {

  datatype Option<+T> = None | Some(value: T) {
    function GetOr(default: T): T {
      match this
      case Some(v) => v
      case None => default
    }
  }

  datatype Result<+R, +E> = Success(value: R) | Failure(error: E)

  /** A MongoDB ObjectId, treated as an opaque value. */
  type ObjectId = nat

  /** A route parameter that the store casts to an ObjectId: either it has the
      ObjectId form, or the cast fails with an error of kind 'ObjectId'. */
  datatype IdParam = WellFormed(id: ObjectId) | Malformed(raw: string)

  /** The value stored under `key` in a string map, or None. */
  function Lookup(m: map<string, string>, key: string): (r: Option<string>)
    ensures r.Some? <==> key in m
    ensures r.Some? ==> r.value == m[key]
  {
    if key in m then Some(m[key]) else None
  }
}
