/** JavaScript value conventions shared by every page: optional fields,
    truthiness of text, the `||` fallbacks and the error-message chain. */
module Js {

  /** A field that may be missing: `None` stands for both `null` and `undefined`. */
  datatype Option<+T> = None | Some(value: T)

  /** `!!v` for an optional text: missing and the empty string are falsy. */
  predicate Truthy(v: Option<string>)
  {
    v.Some? && v.value != ""
  }

  /** `v || fallback` for an optional text. */
  function OrElse(v: Option<string>, fallback: string): (r: string)
    ensures Truthy(v) ==> r == v.value
    ensures !Truthy(v) ==> r == fallback
  {
    if Truthy(v) then v.value else fallback
  }

  /** `v || null` for a text field: a blank field is sent as `null`. */
  function OrNull(v: string): (r: Option<string>)
    ensures r.None? <==> v == ""
    ensures r.Some? ==> r.value == v
  {
    if v != "" then Some(v) else None
  }

  /** The message every page shows when a request fails:
      `e?.response?.data?.error || e.message || fallback`. */
  function ErrorMessage(responseError: Option<string>, message: Option<string>, fallback: string): (r: string)
    ensures Truthy(responseError) ==> r == responseError.value
    ensures !Truthy(responseError) && Truthy(message) ==> r == message.value
    ensures !Truthy(responseError) && !Truthy(message) ==> r == fallback
  {
    OrElse(responseError, OrElse(message, fallback))
  }
}
