/** fetchData's decisions (static/dashboard.js): what one authenticated call yields,
    given the stored token and the server's answer. */
module Fetch {
  import opened Text
  import opened Records

  datatype Verb = GET | POST | PUT | DELETE

  /** A request the dashboard sends. A save carries the form it was built from; its
      JSON body is the payload read from those inputs (Dashboard.Body). */
  datatype Request = Request(verb: Verb, url: string, form: Option<FormInputs>)

  /** What fetch() and response.json() deliver: a transport failure with its message,
      or a status with the body's `msg` key and the parsed body. */
  datatype HttpResponse<T> = NetworkError(reason: string) | Reply(status: int, msg: Option<string>, data: T)

  /** The four ways fetchData ends: navigation to the login page without a request,
      the 401/403 path, a thrown Error with its message, or the parsed body. The first
      two return undefined to the caller; only Failed throws. */
  datatype Outcome<T> = NoToken | Unauthorized | Failed(message: string) | Data(value: T)

  const SessionExpired := "Session expired or unauthorized. Please log in again."

  /** `if (!token)`: a missing item and an empty string are both falsy. */
  predicate HasToken(token: Option<string>) {
    token.Some? && token.value != ""
  }

  predicate IsOk(status: int) {
    200 <= status <= 299
  }

  /** The message of the error thrown for a failed reply: the body's msg when it is a
      non-empty string, otherwise a generic text naming the status code. */
  function ErrorMessage(status: int, msg: Option<string>): (m: string)
    ensures m != ""
    ensures msg.Some? && msg.value != "" ==> m == msg.value
    ensures msg.None? || msg.value == "" ==> m == "HTTP error! status: " + IntToString(status)
  {
    if msg.Some? && msg.value != "" then msg.value else "HTTP error! status: " + IntToString(status)
  }

  /** fetchData's branching, in the order the code tests it. */
  function Classify<T>(token: Option<string>, resp: HttpResponse<T>): (o: Outcome<T>)
    ensures o.NoToken? <==> !HasToken(token)
    ensures o.Data? <==> HasToken(token) && resp.Reply? && IsOk(resp.status)
    ensures o.Data? ==> o.value == resp.data
    ensures o.Unauthorized? <==> HasToken(token) && resp.Reply? && (resp.status == 401 || resp.status == 403)
    ensures o.Failed? && resp.Reply? ==> o.message == ErrorMessage(resp.status, resp.msg)
    ensures o.Failed? && resp.NetworkError? ==> o.message == resp.reason
  {
    if !HasToken(token) then NoToken
    else match resp
      case NetworkError(reason) => Failed(reason)
      case Reply(status, msg, data) =>
        if status == 401 || status == 403 then Unauthorized
        else if !IsOk(status) then Failed(ErrorMessage(status, msg))
        else Data(data)
  }
}
