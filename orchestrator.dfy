/** The nightly deployment pipeline: environment check, service lookup,
    cache clear, settle delay, deploy trigger, wait, and the exit code. */
module Orchestrator {
  import opened DeployTypes
  import opened Config
  import opened RemoteClient
  import opened Poller

  /** The pause between a successful cache clear and the deploy trigger. */
  const SettleSeconds: nat := 10

  /** How long the pipeline waits for the deployment. */
  const MainWaitMinutes: int := 10

  /** The platform's answers: one reply to each of the three one-shot
      requests, and `status(k)` to the k-th status request. */
  datatype Remote = Remote(service: Reply, cache: Reply, trigger: Reply, status: nat -> Reply)

  /** The process exit code and the events of the run. */
  datatype Run = Run(exitCode: int, trace: seq<Event>)

  /** The events a run produces once the trigger call has been made. */
  const TriggerPrefix: seq<Event> := [GetService, ClearCache, Sleep(SettleSeconds), CreateDeploy]

  /** Python truthiness of the decoded service object. */
  predicate ServiceTruthy(service: Option<Body>)
    ensures ServiceTruthy(service) <==> service.Some? && service.value != map[]
  {
    service.Some? && |service.value| > 0
  }

  /** The pipeline as a function of its inputs. */
  function Pipeline(env: Env, remote: Remote): (run: Run)
    ensures run.exitCode == 0 || run.exitCode == 1
    ensures !CheckEnvironment(env).Configured? ==> run == Run(1, [])
  {
    if !CheckEnvironment(env).Configured? then Run(1, [])
    else if !ServiceTruthy(GetServiceInfo(remote.service)) then Run(1, [GetService])
    else if !ClearBuildCache(remote.cache) then Run(1, [GetService, ClearCache])
    else
      var deployId := TriggerDeployment(remote.trigger);
      if !Truthy(deployId) then Run(1, TriggerPrefix)
      else
        var polled := Wait(deployId, MainWaitMinutes, remote.status);
        Run(if polled.outcome == Completed then 0 else 1, TriggerPrefix + polled.trace)
  }

  /** The script's entry point: each stage runs only when the one before it
      succeeded, and the run ends with exit code 0 or 1. */
  method NightlyDeploy(env: Env, remote: Remote) returns (exitCode: int, trace: seq<Event>)
    ensures Run(exitCode, trace) == Pipeline(env, remote)
    ensures exitCode == 0 || exitCode == 1
  {
    if !CheckEnvironment(env).Configured? {
      return 1, [];
    }
    var service := GetServiceInfo(remote.service);
    trace := [GetService];
    if !ServiceTruthy(service) {
      assert Pipeline(env, remote) == Run(1, trace);
      return 1, trace;
    }
    var cacheCleared := ClearBuildCache(remote.cache);
    trace := trace + [ClearCache];
    if cacheCleared {
      trace := trace + [Sleep(SettleSeconds)];
      var deployId := TriggerDeployment(remote.trigger);
      trace := trace + [CreateDeploy];
      assert trace == TriggerPrefix;
      if Truthy(deployId) {
        var outcome, polls := WaitForDeployment(deployId, MainWaitMinutes, remote.status);
        assert Pipeline(env, remote) == Run(if outcome == Completed then 0 else 1, TriggerPrefix + polls);
        trace := trace + polls;
        if outcome == Completed {
          exitCode := 0;
        } else {
          exitCode := 1;
        }
      } else {
        assert Pipeline(env, remote) == Run(1, trace);
        exitCode := 1;
      }
    } else {
      assert Pipeline(env, remote) == Run(1, trace);
      exitCode := 1;
    }
  }

  /** Exit code 0 exactly when both secrets are set, the service lookup gets
      a 200 with a non-empty object, the cache clear gets 200 or 202, the
      trigger gets 200 or 201 without an empty id, and within the budget of 20
      status requests some 200 reply says "live" before any says a failure
      status. */
  lemma SucceedsIff(env: Env, remote: Remote)
    ensures Pipeline(env, remote).exitCode == 0 <==>
      Truthy(env.apiKey) && Truthy(env.serviceId) &&
      remote.service.Http? && remote.service.code == 200 && |remote.service.body| > 0 &&
      remote.cache.Http? && (remote.cache.code == 200 || remote.cache.code == 202) &&
      remote.trigger.Http? && (remote.trigger.code == 200 || remote.trigger.code == 201) &&
      ("id" !in remote.trigger.body || remote.trigger.body["id"] != "") &&
      exists k :: 0 <= k < 20 && ClassifyStatusReply(remote.status(k)).Live? &&
        forall j :: 0 <= j < k ==> !ClassifyStatusReply(remote.status(j)).Failed?
  {
    CompletedIff(remote.status, 0, 20);
  }

  /** A failed stage ends the run with exit code 1 and no later request:
      the trace stops at the failing call. */
  lemma FailureStopsPipeline(env: Env, remote: Remote)
    requires CheckEnvironment(env).Configured?
    ensures !ServiceTruthy(GetServiceInfo(remote.service)) ==>
      Pipeline(env, remote) == Run(1, [GetService])
    ensures ServiceTruthy(GetServiceInfo(remote.service)) && !ClearBuildCache(remote.cache) ==>
      Pipeline(env, remote) == Run(1, [GetService, ClearCache])
    ensures (ServiceTruthy(GetServiceInfo(remote.service)) && ClearBuildCache(remote.cache) &&
             !Truthy(TriggerDeployment(remote.trigger))) ==>
      Pipeline(env, remote) == Run(1, TriggerPrefix)
  {
  }

  /** Each request in a run implies that every stage before it succeeded. */
  lemma LaterStagesNeedEarlierSuccess(env: Env, remote: Remote)
    ensures GetService in Pipeline(env, remote).trace ==> CheckEnvironment(env).Configured?
    ensures ClearCache in Pipeline(env, remote).trace ==>
      CheckEnvironment(env).Configured? && ServiceTruthy(GetServiceInfo(remote.service))
    ensures CreateDeploy in Pipeline(env, remote).trace ==>
      CheckEnvironment(env).Configured? && ServiceTruthy(GetServiceInfo(remote.service)) &&
      ClearBuildCache(remote.cache)
    ensures GetDeployStatus in Pipeline(env, remote).trace ==>
      CheckEnvironment(env).Configured? && ServiceTruthy(GetServiceInfo(remote.service)) &&
      ClearBuildCache(remote.cache) && Truthy(TriggerDeployment(remote.trigger))
  {
    if CheckEnvironment(env).Configured? && ServiceTruthy(GetServiceInfo(remote.service)) &&
       ClearBuildCache(remote.cache) && Truthy(TriggerDeployment(remote.trigger)) {
      PollEvents(remote.status, 0, 20);
    }
  }

  /** A 200 or 201 trigger reply without an id proceeds to polling with the
      placeholder id, so the first status request is made. */
  lemma MissingIdStillPolls(env: Env, remote: Remote)
    requires CheckEnvironment(env).Configured? && ServiceTruthy(GetServiceInfo(remote.service))
    requires ClearBuildCache(remote.cache)
    requires remote.trigger.Http? && (remote.trigger.code == 200 || remote.trigger.code == 201)
    requires "id" !in remote.trigger.body
    ensures TriggerDeployment(remote.trigger) == Some("Unknown")
    ensures |Pipeline(env, remote).trace| > 4 && Pipeline(env, remote).trace[4] == GetDeployStatus
  {
  }

  /** A run makes at most 20 status requests. */
  lemma StatusRequestsBounded(env: Env, remote: Remote)
    ensures StatusRequests(Pipeline(env, remote).trace) <= 20
  {
    var run := Pipeline(env, remote);
    if CheckEnvironment(env).Configured? && ServiceTruthy(GetServiceInfo(remote.service)) &&
       ClearBuildCache(remote.cache) && Truthy(TriggerDeployment(remote.trigger)) {
      var polled := Wait(TriggerDeployment(remote.trigger), MainWaitMinutes, remote.status);
      StatusRequestsConcat(TriggerPrefix, polled.trace);
    }
    NoStatusRequests([]);
    NoStatusRequests([GetService]);
    NoStatusRequests([GetService, ClearCache]);
    NoStatusRequests(TriggerPrefix);
  }
}
