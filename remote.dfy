/** How the orchestrator interprets the reply to each of its four remote
    requests. The requests themselves (URLs, headers, timeouts) are not
    modelled: every reply is an input. */
module RemoteClient {
  import opened DeployTypes

  /** Service lookup: the decoded service object on 200, nothing otherwise. */
  function GetServiceInfo(reply: Reply): (service: Option<Body>)
    ensures service.Some? <==> reply.Http? && reply.code == 200
    ensures service.Some? ==> service.value == reply.body
  {
    if reply.Http? && reply.code == 200 then Some(reply.body) else None
  }

  /** Cache clear: 200 and the asynchronous 202 both count as cleared. */
  function ClearBuildCache(reply: Reply): (cleared: bool)
    ensures cleared <==> reply.Http? && (reply.code == 200 || reply.code == 202)
    ensures reply.Transport? ==> !cleared
  {
    reply.Http? && reply.code in {200, 202}
  }

  /** Deploy creation: on 200 or 201 the deploy id from the body, or the
      placeholder "Unknown" when the body has none. */
  function TriggerDeployment(reply: Reply): (deployId: Option<string>)
    ensures deployId.Some? <==> reply.Http? && (reply.code == 200 || reply.code == 201)
    ensures deployId.Some? && "id" in reply.body ==> deployId.value == reply.body["id"]
    ensures deployId.Some? && "id" !in reply.body ==> deployId == Some("Unknown")
    ensures Truthy(deployId) <==>
      deployId.Some? && ("id" !in reply.body || reply.body["id"] != "")
  {
    if reply.Http? && reply.code in {200, 201} then Some(Get(reply.body, "id", "Unknown"))
    else None
  }

  /** The deploy statuses that end polling with a failure. */
  const FailureStatuses: set<string> := {"build_failed", "cancelled", "deactivated"}

  /** What one status reply means to the poller. */
  datatype Verdict = Live | Failed(status: string) | Pending

  /** Status poll: only a 200 reply is inspected; its status (default
      "unknown") is "live", one of the failure statuses, or anything else. */
  function ClassifyStatusReply(reply: Reply): (v: Verdict)
    ensures v.Live? <==>
      reply.Http? && reply.code == 200 && "status" in reply.body && reply.body["status"] == "live"
    ensures v.Failed? <==>
      reply.Http? && reply.code == 200 && "status" in reply.body
      && reply.body["status"] in FailureStatuses
    ensures v.Failed? ==> v.status == reply.body["status"]
    ensures !reply.Http? || reply.code != 200 || "status" !in reply.body ==> v == Pending
  {
    if reply.Http? && reply.code == 200 then
      var status := Get(reply.body, "status", "unknown");
      if status == "live" then Live
      else if status in FailureStatuses then Failed(status)
      else Pending
    else Pending
  }
}
