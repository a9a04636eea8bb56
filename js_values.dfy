/** The few JavaScript value conventions the dashboard relies on:
    absent properties, string truthiness, template-literal text and the
    error text shown after a failed request. */
module JsValues {

  /** A property that may be absent (`undefined`). */
  datatype Option<+T> = None | Some(value: T) {
    function GetOr(default: T): (r: T)
      ensures Some? ==> r == value
      ensures None? ==> r == default
    {
      match this
      case Some(v) => v
      case None => default
    }
  }

  /** JavaScript truthiness of an optional string: absent and "" are falsy. */
  predicate Truthy(s: Option<string>) {
    s.Some? && s.value != ""
  }

  /** `s || fallback` for an optional string. */
  function OrElse(s: Option<string>, fallback: string): (r: string)
    ensures Truthy(s) ==> r == s.value
    ensures !Truthy(s) ==> r == fallback
  {
    if Truthy(s) then s.value else fallback
  }

  /** What a template literal `${s}` prints: an absent property prints as "undefined". */
  function TemplateText(s: Option<string>): (r: string)
    ensures s.Some? ==> r == s.value
    ensures s.None? ==> r == "undefined"
  {
    match s
    case Some(v) => v
    case None => "undefined"
  }

  const SomethingWentWrong: string := "Something went wrong"

  /** `e.message || 'Something went wrong'`: the error text a failed request leaves behind. */
  function ErrorText(message: string): (r: string)
    ensures r != ""
    ensures message != "" ==> r == message
    ensures message == "" ==> r == SomethingWentWrong
  {
    if message != "" then message else SomethingWentWrong
  }

  /** The outcome of one `fetch` followed by `res.json()`: the parsed body,
      a response whose `ok` flag is false, or a thrown error with its message. */
  datatype Response<T> = Ok(body: T) | NotOk | Thrown(message: string)
}
