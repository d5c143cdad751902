/** The HTTP transport as an abstract function from a URL to a response or a
    connection failure, and the two ways the parsers consume it: propagate
    every failure (`raise_for_status()` then `.json()`), or swallow every
    failure and degrade to the empty text. */
module Transport {
  import opened Wrappers

  /** A decoded JSON document. */
  datatype Json =
    | JNull
    | JBool(b: bool)
    | JNum(n: int)
    | JStr(s: string)
    | JArr(items: seq<Json>)
    | JObj(fields: map<string, Json>)

  /** A received HTTP response: status code, body text, and the body decoded
      as JSON when it is valid JSON. */
  datatype Response = Response(status: int, text: string, json: Option<Json>)

  /** The exceptions the fetch helpers let escape to their callers. */
  datatype Error =
    | ConnectionFailed(reason: string)
    | HttpError(status: int)
    | InvalidJson
    | KeyError(key: string)
    | TypeError

  /** One blocking `requests.get`: a response, or the reason it failed. */
  type Transport = string -> Result<Response, string>

  /** `raise_for_status()` raises for client (4xx) and server (5xx) errors. */
  predicate IsErrorStatus(status: int) {
    400 <= status < 600
  }

  /** The GET succeeded with a status that `raise_for_status()` lets through. */
  predicate Delivered(t: Transport, url: string) {
    t(url).Success? && !IsErrorStatus(t(url).value.status)
  }

  /** `requests.get(url)`, `raise_for_status()`, `.json()`: every failure propagates. */
  function FetchJson(t: Transport, url: string): (r: Result<Json, Error>)
    ensures r.Success? <==> Delivered(t, url) && t(url).value.json.Some?
    ensures r.Success? ==> r.value == t(url).value.json.value
    ensures t(url).Failure? ==> r == Failure(ConnectionFailed(t(url).error))
    ensures t(url).Success? && IsErrorStatus(t(url).value.status) ==> r == Failure(HttpError(t(url).value.status))
  {
    match t(url)
    case Failure(reason) => Failure(ConnectionFailed(reason))
    case Success(resp) =>
      if IsErrorStatus(resp.status) then Failure(HttpError(resp.status))
      else if resp.json.None? then Failure(InvalidJson)
      else Success(resp.json.value)
  }

  /** `download_api_data`: the body text, or `""` whatever went wrong. */
  function FetchTextOrEmpty(t: Transport, url: string): (r: string)
    ensures Delivered(t, url) ==> r == t(url).value.text
    ensures !Delivered(t, url) ==> r == ""
    ensures r != "" ==> Delivered(t, url)
  {
    match t(url)
    case Failure(_) => ""
    case Success(resp) => if IsErrorStatus(resp.status) then "" else resp.text
  }
}
