/** Optional values: the model's stand-in for JavaScript's `undefined`. */
module Wrappers {
  datatype Option<+T> = None | Some(value: T) {
    /** The value when present, `default` otherwise. */
    function GetOr(default: T): T {
      match this
      case Some(v) => v
      case None => default
    }
  }

  /** `s || fallback` on an optional string: an absent or empty string gives
      the fallback, any other string is kept. */
  function OrElse(s: Option<string>, fallback: string): (r: string)
    ensures s.Some? && s.value != "" ==> r == s.value
    ensures s.None? || s.value == "" ==> r == fallback
  {
    if s.Some? && s.value != "" then s.value else fallback
  }

  /** Mongoose's `required` on a String: present and not the empty string,
      the same test under which `||` falls back. */
  predicate RequiredString(s: Option<string>): (ok: bool)
    ensures ok <==> s.Some? && OrElse(s, "") != ""
  {
    s.Some? && s.value != ""
  }
}

/** What a page's `fetch` call produced, as far as the page looks at it. A
    page that ignores the body of a successful answer uses `Response<()>`. */
module Fetch {
  import opened Wrappers

  datatype Response<T> =
    | Ok(body: T)                      // `res.ok`, and the JSON body parsed
    | Failed(message: Option<string>)  // a non-2xx answer whose JSON body may carry `message`
    | NetworkError                     // `fetch` or `res.json()` threw
}
