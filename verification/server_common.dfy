/** What a route handler sends back: the status codes the routes use. */
module Http {

  datatype Status =
    | Ok            // 200 with a JSON body
    | Unauthorized  // 401 "Not authorized"
    | NotFound      // 404 "... not found"
    | ServerError   // 500 "Server Error": the database rejected the write
}

/** The part of Mongoose's document validation the schemas rely on. */
module Mongoose {
  import opened Wrappers

  /** `required: true` on a String path: the value is present and not empty. */
  predicate RequiredString(o: Option<string>) {
    o.Some? && o.value != ""
  }

  /** `required: true` on any other path: the value is present. */
  predicate Required<T>(o: Option<T>) {
    o.Some?
  }

  /** The path name when its check failed, nothing otherwise. */
  function Check(ok: bool, path: string): (r: seq<string>)
    ensures r == [] <==> ok
  {
    if ok then [] else [path]
  }
}
