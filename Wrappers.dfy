/** Optional values and the outcome of a remote call. */
module Wrappers {

  /** `undefined`/`null` versus a present value. */
  datatype Option<+T> = None | Some(value: T) {
    function GetOr(default: T): T {
      match this
      case Some(v) => v
      case None => default
    }
  }

  /** What an awaited API call produced: a parsed payload, or a thrown `Error` carrying a message. */
  datatype ApiResult<+R> = Ok(value: R) | Fail(message: string)

  /** JavaScript `message || fallback`: an empty message is falsy and gives way to the fallback. */
  function MessageOr(message: string, fallback: string): (r: string)
    ensures message != "" ==> r == message
    ensures message == "" ==> r == fallback
  {
    if message != "" then message else fallback
  }

  /** JavaScript truthiness of an optional string: falsy exactly for `undefined` and `''`. */
  function TruthyString(o: Option<string>): (t: bool)
    ensures !t <==> o == None || o == Some("")
  {
    o.Some? && o.value != ""
  }
}
