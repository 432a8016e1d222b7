/** The dashboard's `callAPI` wrapper (frontend/src/hooks/use-rest-api.ts):
    what happens to a request's result or error. The toast, the navigation
    and the caller's error callback are recorded as effects, in order. */
module RestApi {
  import opened Common

  const SessionExpired := "Session expired, please login again"
  const FallbackError := "Something went wrong, please try again"
  const LoginRoute := "/login"

  /** An axios error: the response status and the envelope's `message`, when
      a response arrived, and the error's own message. */
  datatype ApiError = ApiError(status: Option<int>, serverMessage: Option<string>, message: string)

  /** How the awaited call settled. */
  datatype Settled<T> = Succeeded(response: T) | Failed(error: ApiError)

  /** `CallAPIArgs`: the optional switch and whether a callback was given. */
  datatype CallArgs = CallArgs(useDefaultError: Option<bool>, hasDefaultError: bool)

  datatype Effect = Toast(text: string) | Navigate(to: string) | DefaultErrorCallback

  /** The promise `callAPI` returns: resolved (with `undefined` as `None`) or
      rejected with the error. */
  datatype CallResult<T> = Resolved(value: Option<T>) | Rejected(error: ApiError)

  datatype Call<T> = Call(result: CallResult<T>, effects: seq<Effect>)

  /** `a || b` on strings: an empty string is falsy. */
  function OrElse(a: Option<string>, b: string): (r: string)
    ensures a.Some? && a.value != "" ==> r == a.value
    ensures !(a.Some? && a.value != "") ==> r == b
  {
    if a.Some? && a.value != "" then a.value else b
  }

  /** The toast text: the server's message, else the error's message, else
      the fixed fallback; never empty. */
  function ErrorText(e: ApiError): (t: string)
    ensures t != ""
    ensures e.serverMessage.Some? && e.serverMessage.value != "" ==> t == e.serverMessage.value
    ensures !(e.serverMessage.Some? && e.serverMessage.value != "") && e.message != "" ==> t == e.message
    ensures !(e.serverMessage.Some? && e.serverMessage.value != "") && e.message == "" ==> t == FallbackError
  {
    OrElse(e.serverMessage, OrElse(Some(e.message), FallbackError))
  }

  /** `args?.useDefaultError ?? true`. */
  predicate ShowsToast(args: CallArgs)
  {
    args.useDefaultError != Some(false)
  }

  function CallAPI<T>(settled: Settled<T>, args: CallArgs): (c: Call<T>)
    ensures settled.Succeeded? ==> c.result == Resolved(Some(settled.response)) && c.effects == []
    ensures settled.Failed? && settled.error.status == Some(401) ==>
      c.result == Resolved(None) && c.effects == [Toast(SessionExpired), Navigate(LoginRoute)]
    ensures c.result.Rejected? <==> settled.Failed? && settled.error.status != Some(401)
    ensures c.result.Rejected? ==>
      && c.result.error == settled.error
      && (DefaultErrorCallback in c.effects <==> args.hasDefaultError)
      && (Toast(ErrorText(settled.error)) in c.effects <==> ShowsToast(args))
      && (forall k :: 0 <= k < |c.effects| ==>
            c.effects[k] == DefaultErrorCallback || c.effects[k] == Toast(ErrorText(settled.error)))
      && (args.hasDefaultError ==> c.effects[0] == DefaultErrorCallback)
  {
    match settled
    case Succeeded(response) => Call(Resolved(Some(response)), [])
    case Failed(error) =>
      if error.status == Some(401) then
        Call(Resolved(None), [Toast(SessionExpired), Navigate(LoginRoute)])
      else
        var callback := if args.hasDefaultError then [DefaultErrorCallback] else [];
        var toast := if ShowsToast(args) then [Toast(ErrorText(error))] else [];
        Call(Rejected(error), callback + toast)
  }
}
