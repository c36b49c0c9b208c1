/** The environment check that runs before any remote request. */
module Config {
  import opened DeployTypes

  /** The two secrets, as read from `RENDER_API_KEY` and `RENDER_SERVICE_ID`
      (`None` when the variable is unset). */
  datatype Env = Env(apiKey: Option<string>, serviceId: Option<string>)

  /** Which way the check ended; each failure has its own error line. */
  datatype EnvCheck = Configured | MissingApiKey | MissingServiceId

  /** The API key is checked first and a missing key ends the check, so the
      service id is only looked at when the key is present. */
  function CheckEnvironment(env: Env): (r: EnvCheck)
    ensures r.Configured? <==> Truthy(env.apiKey) && Truthy(env.serviceId)
    ensures !Truthy(env.apiKey) ==> r == MissingApiKey
    ensures Truthy(env.apiKey) && !Truthy(env.serviceId) ==> r == MissingServiceId
  {
    if !Truthy(env.apiKey) then MissingApiKey
    else if !Truthy(env.serviceId) then MissingServiceId
    else Configured
  }
}
