/** Values exchanged between the nightly deployment orchestrator and the
    deployment platform's HTTP API, and the events a run produces. */
module DeployTypes {

  datatype Option<T> = None | Some(value: T)

  /** Python truthiness of an optional string: `None` and `""` are falsy. */
  predicate Truthy(s: Option<string>)
    ensures Truthy(s) <==> s != None && s != Some("")
  {
    s.Some? && s.value != ""
  }

  /** A decoded JSON object whose members are strings. */
  type Body = map<string, string>

  /** Python's `body.get(key, default)`. */
  function Get(body: Body, key: string, default: string): (v: string)
    ensures key in body ==> v == body[key]
    ensures key !in body ==> v == default
  {
    if key in body then body[key] else default
  }

  /** What one HTTP round trip yields: a status code with its decoded body,
      or a `RequestException` (connection failure, timeout, undecodable body). */
  datatype Reply = Http(code: int, body: Body) | Transport

  /** The observable actions of a run, in order: the four kinds of remote
      request and the two kinds of sleep. */
  datatype Event =
    | GetService
    | ClearCache
    | CreateDeploy
    | GetDeployStatus
    | Sleep(seconds: nat)
}
