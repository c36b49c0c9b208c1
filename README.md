# Nightly deployment orchestrator, modelled in Dafny

This project models the decision logic of `deploy_script.py`. The script runs every night against the
Render.com API. It checks two secrets, looks up the target service, clears its build cache, waits
10 seconds, creates a deploy, and polls the deploy's status at most twice per minute for
`max_wait_minutes` minutes. It exits with code 0 only when the deploy reaches `live`.

Every remote request is replaced by its reply, supplied as input. A reply is
`Http(code, body)`, where the body is a decoded JSON object with string values, or `Transport`,
which stands for a `requests` exception. A run produces an exit code and a trace of events: the four
remote request kinds and the two sleeps. The "no later stage after a failure" properties are
stated over that trace.

Modules, in dependency order:

- `DeployTypes` (types.dfy): `Option`, Python truthiness of optional strings, `Reply`, `Event`.
- `Config` (config.dfy): the environment check.
- `RemoteClient` (remote.dfy): how the reply to each of the four requests is interpreted.
- `Poller` (poller.dfy): the bounded poll loop (`WaitForDeployment`, a method with a `while` loop).
  The loop is proved equal to the specification function `Wait`, which for a truthy deploy id is `PollFrom(status, 0, Budget(max_wait_minutes))`.
  The lemmas about polling are stated over `PollFrom`.
- `Orchestrator` (orchestrator.dfy): the pipeline (`NightlyDeploy`, a method with early returns).
  The method is proved equal to the specification function `Pipeline`, and the lemmas about exit codes and traces are stated over `Pipeline`.

`check_environment` (deploy_script.py:25-36) returns at the first missing secret, and so does
`Config.CheckEnvironment`.

## Model

| member | source | states |
|---|---|---|
| `DeployTypes.Truthy` | deploy_script.py:27-31 | Python truthiness of an optional string (a secret, line 27 and 31; a deploy id, lines 135 and 205): false exactly for `None` and the empty string |
| `DeployTypes.Get` | deploy_script.py:117 | `.get(key, default)` on a decoded body (line 117 for the deploy id, line 155 for the status): the member's value when the key is present, the default otherwise |
| `Config.CheckEnvironment` | deploy_script.py:25-36 | configured exactly when both the API key and the service id are set and non-empty; a missing key yields `MissingApiKey` whatever the service id is; with the key present, a missing service id yields `MissingServiceId` |
| `RemoteClient.GetServiceInfo` | deploy_script.py:39-65 | a service object exactly on HTTP 200 (the reply's body); any other code or a transport error gives none |
| `RemoteClient.ClearBuildCache` | deploy_script.py:68-94 | cleared exactly when the reply is HTTP 200 or 202; a transport error is never a clear |
| `RemoteClient.TriggerDeployment` | deploy_script.py:97-130 | a deploy id exactly on HTTP 200 or 201; it is the body's `id` when present and `"Unknown"` otherwise; the id is truthy unless the body's `id` is the empty string |
| `RemoteClient.ClassifyStatusReply` | deploy_script.py:153-164 | `Live` exactly for a 200 reply whose `status` is "live", `Failed` exactly for a 200 reply whose `status` is build_failed, cancelled or deactivated (carrying that status), and `Pending` for a transport error, a non-200 code, a missing status (default "unknown") or any other status |
| `Poller.Budget` | deploy_script.py:143-145 | the number of attempts is `2 * max_wait_minutes`, and zero when that is not positive (an empty `range`) |
| `Poller.PollFrom` | deploy_script.py:145-173 | from attempt `i` to `n`, at most `n - i` status requests are made, and the outcome is never "no deploy id" |
| `Poller.Wait` | deploy_script.py:133-173 | a falsy deploy id fails with no status request; otherwise at most the budget's number of status requests are made |
| `Poller.WaitForDeployment` | deploy_script.py:133-173 | the loop's outcome and trace equal `Wait`'s: one status request per attempt, an immediate end on "live" or a failure status, a 30-second pause after every other attempt, a timeout once the budget is used; a falsy id returns at once with an empty trace |
| `Poller.FirstTerminalDecides` | deploy_script.py:153-164 | if attempt `k` is the first whose reply is terminal, the wait ends with that verdict ("live" gives success, a failure status gives that failure) after exactly `k + 1` status requests |
| `Poller.TimedOutIff` | deploy_script.py:145-173 | the wait times out exactly when no attempt within the budget sees a terminal status, and it then makes every request of the budget |
| `Poller.CompletedIff` | deploy_script.py:145-164 | the wait succeeds exactly when some attempt within the budget gets a 200 reply saying "live" and no earlier attempt got a failure status |
| `Poller.CompletedHasLive` | deploy_script.py:145-164 | a successful wait returns the attempt at which a 200 reply said "live", with no failure status at any earlier attempt |
| `Poller.LiveCompletes` | deploy_script.py:145-164 | a "live" reply at an attempt within the budget, with no failure status before it, makes the wait succeed |
| `Poller.PollEvents` | deploy_script.py:145-170 | the wait's only events are status requests and 30-second pauses |
| `Poller.LiveOnThirdAttempt` | deploy_script.py:145-164 | replies queued, build_in_progress, live: success after three requests and two pauses |
| `Poller.FailedOnSecondAttempt` | deploy_script.py:145-164 | replies queued, build_failed: an explicit failure (not a timeout) after two requests |
| `Poller.TimeoutAfterTwoAttempts` | deploy_script.py:143-173 | one minute of waiting on a deploy that stays queued: exactly two requests, two pauses, then a timeout |
| `Poller.TransientErrorThenLive` | deploy_script.py:145-170 | a transport error on the first request does not end the wait; "live" on the second is success |
| `Orchestrator.ServiceTruthy` | deploy_script.py:188 | `if not service`: the lookup counts as a found service exactly when it returned an object and that object is non-empty, so an empty JSON object is a failure |
| `Orchestrator.Pipeline` | deploy_script.py:176-221 | the exit code is always 0 or 1; a failed environment check exits 1 before any remote request |
| `Orchestrator.NightlyDeploy` | deploy_script.py:176-221 | the script's entry point computes exactly `Pipeline`'s exit code and trace, and exits only with 0 or 1 |
| `Orchestrator.SucceedsIff` | deploy_script.py:182-221 | exit code 0 exactly when both secrets are set, the service lookup gets 200 with a non-empty object, the cache clear gets 200 or 202, the trigger gets 200 or 201 with an id that is absent or non-empty, and within 20 status requests a 200 reply says "live" before any says a failure status |
| `Orchestrator.FailureStopsPipeline` | deploy_script.py:186-221 | a failed service lookup, cache clear or trigger exits 1 with the trace ending at the failing request, so no later request is made |
| `Orchestrator.LaterStagesNeedEarlierSuccess` | deploy_script.py:181-208 | a service request happens only after the environment check passed, a cache clear only after a service was found, a trigger only after the cache was cleared, and a status request only after a trigger returned a truthy id |
| `Orchestrator.MissingIdStillPolls` | deploy_script.py:203-208 | a 200 or 201 trigger reply without an id yields the id "Unknown", and the pipeline goes on to make its first status request |
| `Orchestrator.StatusRequestsBounded` | deploy_script.py:143-151 | a whole run makes at most 20 status requests (`max_wait_minutes=10`) |

## Left out

- HTTP itself is not modelled: the base URL, the bearer and content-type headers, the 30-second request timeouts and the request body `{"clearCache": "do_not_clear"}`. Each request is the reply it gets.
- A reply whose JSON cannot be decoded is represented as `Transport`, but only at the three call sites that decode the body: a 200 at service lookup (deploy_script.py:52), a 200 or 201 at trigger (line 116) and a 200 at the status poll (line 154). There, with current `requests`, the decode error is a `RequestException` and the `except` clause catches it like a transport error. A clear-cache reply is always `Http(code, _)`, whatever its body: `clear_build_cache` reads only the status code.
- JSON bodies are objects with string values. A non-string `id` or `status` (for example `null`) and a body that is not an object (which would make `.get` raise and crash the script) are not modelled.
- The service object is only tested for truthiness; its `name` and other attributes are used only in log lines.
- Logging is not modelled: the `log_message` text, its UTC timestamps and the emoji. The loop's distinct "timed out" and "failed with status" messages are kept as the distinct outcomes `TimedOut` and `DeployFailed`.
- `time.sleep` is not modelled as time. The 10-second settle delay and the 30-second poll pauses appear only as `Sleep` events in the trace.
- The secrets are not read from `os.environ` at import time. They are the `Env` parameter.
- `sys.exit` is not modelled as terminating the process. Its argument is the returned exit code.
- main.py, userManagement.py and render_config.py are not part of this model: they are Flask routing, SQLite access and framework setup.
