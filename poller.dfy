/** The bounded wait for a triggered deployment to reach a terminal status. */
module Poller {
  import opened DeployTypes
  import opened RemoteClient

  /** The pause after every attempt that does not end the wait. */
  const PollIntervalSeconds: nat := 30

  /** How the wait ended. `wait_for_deployment` returns `True` only for `Completed`;
      the other three are the failure cases it logs differently (or, for a
      falsy deploy id, not at all). */
  datatype WaitOutcome = Completed | DeployFailed(status: string) | TimedOut | NoDeployId

  datatype Polled = Polled(outcome: WaitOutcome, trace: seq<Event>)

  /** The attempt budget: two status requests per minute of waiting, and
      none when the product is not positive (an empty `range`). */
  function Budget(maxWaitMinutes: int): (n: nat)
    ensures maxWaitMinutes >= 0 ==> n == 2 * maxWaitMinutes
    ensures maxWaitMinutes <= 0 ==> n == 0
  {
    var maxAttempts := maxWaitMinutes * 2;
    if maxAttempts > 0 then maxAttempts else 0
  }

  /** The number of status requests in a trace. */
  function StatusRequests(trace: seq<Event>): nat
  {
    if trace == [] then 0
    else (if trace[0] == GetDeployStatus then 1 else 0) + StatusRequests(trace[1..])
  }

  lemma {:induction false} StatusRequestsConcat(a: seq<Event>, b: seq<Event>)
    ensures StatusRequests(a + b) == StatusRequests(a) + StatusRequests(b)
  {
    if a == [] {
      assert a + b == b;
    } else {
      assert (a + b)[1..] == a[1..] + b;
      StatusRequestsConcat(a[1..], b);
    }
  }

  lemma {:induction false} NoStatusRequests(trace: seq<Event>)
    requires GetDeployStatus !in trace
    ensures StatusRequests(trace) == 0
  {
    if trace != [] {
      assert trace[0] in trace;
      assert forall e :: e in trace[1..] ==> e in trace;
      NoStatusRequests(trace[1..]);
    }
  }

  /** Attempts `i` up to `n` of the loop, the `i`-th status request being
      answered by `status(i)`. */
  function PollFrom(status: nat -> Reply, i: nat, n: nat): (p: Polled)
    requires i <= n
    decreases n - i
    ensures StatusRequests(p.trace) <= n - i
    ensures p.outcome != NoDeployId
  {
    if i == n then Polled(TimedOut, [])
    else
      match ClassifyStatusReply(status(i))
      case Live => Polled(Completed, [GetDeployStatus])
      case Failed(s) => Polled(DeployFailed(s), [GetDeployStatus])
      case Pending =>
        var rest := PollFrom(status, i + 1, n);
        StatusRequestsConcat([GetDeployStatus, Sleep(PollIntervalSeconds)], rest.trace);
        Polled(rest.outcome, [GetDeployStatus, Sleep(PollIntervalSeconds)] + rest.trace)
  }

  /** One attempt of the loop, as `PollFrom` takes it. */
  lemma PollFromStep(status: nat -> Reply, i: nat, n: nat)
    requires i < n
    ensures ClassifyStatusReply(status(i)) == Live ==>
      PollFrom(status, i, n) == Polled(Completed, [GetDeployStatus])
    ensures ClassifyStatusReply(status(i)).Failed? ==>
      PollFrom(status, i, n) == Polled(DeployFailed(ClassifyStatusReply(status(i)).status), [GetDeployStatus])
    ensures ClassifyStatusReply(status(i)) == Pending ==>
      PollFrom(status, i, n) == Polled(PollFrom(status, i + 1, n).outcome,
        [GetDeployStatus, Sleep(PollIntervalSeconds)] + PollFrom(status, i + 1, n).trace)
  {
  }

  /** The whole wait: nothing is requested for a falsy deploy id. */
  function Wait(deployId: Option<string>, maxWaitMinutes: int, status: nat -> Reply): (p: Polled)
    ensures !Truthy(deployId) ==> p == Polled(NoDeployId, [])
    ensures StatusRequests(p.trace) <= Budget(maxWaitMinutes)
  {
    if !Truthy(deployId) then Polled(NoDeployId, [])
    else PollFrom(status, 0, Budget(maxWaitMinutes))
  }

  /** The poll loop: one status request per attempt, an immediate return on
      "live" or a failure status, and a pause after every other attempt,
      whether its request failed, was answered with a code other than 200, or
      reported a non-terminal status. */
  method WaitForDeployment(deployId: Option<string>, maxWaitMinutes: int, status: nat -> Reply)
    returns (outcome: WaitOutcome, trace: seq<Event>)
    ensures Polled(outcome, trace) == Wait(deployId, maxWaitMinutes, status)
    ensures !Truthy(deployId) ==> outcome == NoDeployId && trace == []
  {
    if !Truthy(deployId) {
      return NoDeployId, [];
    }
    var maxAttempts := Budget(maxWaitMinutes);
    ghost var whole := PollFrom(status, 0, maxAttempts);
    var attempt: nat := 0;
    trace := [];
    while attempt < maxAttempts
      invariant attempt <= maxAttempts
      invariant PollFrom(status, attempt, maxAttempts).outcome == whole.outcome
      invariant trace + PollFrom(status, attempt, maxAttempts).trace == whole.trace
      decreases maxAttempts - attempt
    {
      var reply := status(attempt);
      PollFromStep(status, attempt, maxAttempts);
      ghost var rest := PollFrom(status, attempt + 1, maxAttempts);
      trace := trace + [GetDeployStatus];
      var verdict := ClassifyStatusReply(reply);
      if verdict == Live {
        return Completed, trace;
      } else if verdict.Failed? {
        return DeployFailed(verdict.status), trace;
      }
      assert trace + [Sleep(PollIntervalSeconds)] + rest.trace
          == trace[..|trace| - 1] + ([GetDeployStatus, Sleep(PollIntervalSeconds)] + rest.trace);
      trace := trace + [Sleep(PollIntervalSeconds)];
      attempt := attempt + 1;
    }
    assert trace + [] == trace;
    return TimedOut, trace;
  }

  /** The first terminal status decides the wait, after exactly as many
      requests as it took to see it. */
  lemma {:induction false} FirstTerminalDecides(status: nat -> Reply, i: nat, n: nat, k: nat)
    requires i <= k < n
    requires forall j :: i <= j < k ==> ClassifyStatusReply(status(j)).Pending?
    requires !ClassifyStatusReply(status(k)).Pending?
    ensures PollFrom(status, i, n).outcome ==
      (if ClassifyStatusReply(status(k)).Live? then Completed
       else DeployFailed(ClassifyStatusReply(status(k)).status))
    ensures StatusRequests(PollFrom(status, i, n).trace) == k - i + 1
    decreases k - i
  {
    if i < k {
      assert ClassifyStatusReply(status(i)).Pending?;
      FirstTerminalDecides(status, i + 1, n, k);
      StatusRequestsConcat([GetDeployStatus, Sleep(PollIntervalSeconds)], PollFrom(status, i + 1, n).trace);
    }
  }

  /** The wait times out exactly when every attempt in the budget leaves the
      status non-terminal, and then it has used the whole budget. */
  lemma {:induction false} TimedOutIff(status: nat -> Reply, i: nat, n: nat)
    requires i <= n
    ensures PollFrom(status, i, n).outcome == TimedOut <==>
      forall j :: i <= j < n ==> ClassifyStatusReply(status(j)).Pending?
    ensures PollFrom(status, i, n).outcome == TimedOut ==>
      StatusRequests(PollFrom(status, i, n).trace) == n - i
    decreases n - i
  {
    if i < n {
      TimedOutIff(status, i + 1, n);
      StatusRequestsConcat([GetDeployStatus, Sleep(PollIntervalSeconds)], PollFrom(status, i + 1, n).trace);
    }
  }

  /** No attempt from `i` up to (not including) `k` reports a failure status. */
  predicate NoFailureBefore(status: nat -> Reply, i: nat, k: nat)
  {
    forall j :: i <= j < k ==> !ClassifyStatusReply(status(j)).Failed?
  }

  /** A successful wait has seen "live" with no failure status before it. */
  lemma {:induction false} CompletedHasLive(status: nat -> Reply, i: nat, n: nat) returns (k: nat)
    requires i <= n
    requires PollFrom(status, i, n).outcome == Completed
    ensures i <= k < n && ClassifyStatusReply(status(k)).Live? && NoFailureBefore(status, i, k)
    decreases n - i
  {
    PollFromStep(status, i, n);
    if ClassifyStatusReply(status(i)).Live? {
      k := i;
    } else {
      k := CompletedHasLive(status, i + 1, n);
    }
  }

  /** A "live" reply within the budget with no failure status before it
      makes the wait succeed. */
  lemma {:induction false} LiveCompletes(status: nat -> Reply, i: nat, n: nat, k: nat)
    requires i <= k < n
    requires ClassifyStatusReply(status(k)).Live? && NoFailureBefore(status, i, k)
    ensures PollFrom(status, i, n).outcome == Completed
    decreases k - i
  {
    PollFromStep(status, i, n);
    if !ClassifyStatusReply(status(i)).Live? {
      assert i < k && !ClassifyStatusReply(status(i)).Failed?;
      LiveCompletes(status, i + 1, n, k);
    }
  }

  /** The wait succeeds exactly when some attempt within the budget reports
      "live" on a 200 reply and no earlier attempt reported a failure status. */
  lemma CompletedIff(status: nat -> Reply, i: nat, n: nat)
    requires i <= n
    ensures PollFrom(status, i, n).outcome == Completed <==>
      exists k :: i <= k < n && ClassifyStatusReply(status(k)).Live? &&
        forall j :: i <= j < k ==> !ClassifyStatusReply(status(j)).Failed?
  {
    if PollFrom(status, i, n).outcome == Completed {
      var k := CompletedHasLive(status, i, n);
    }
    forall k | i <= k < n && ClassifyStatusReply(status(k)).Live? && NoFailureBefore(status, i, k)
      ensures PollFrom(status, i, n).outcome == Completed
    {
      LiveCompletes(status, i, n, k);
    }
  }

  /** Every event of a wait is a status request or the 30-second pause. */
  lemma {:induction false} PollEvents(status: nat -> Reply, i: nat, n: nat)
    requires i <= n
    ensures forall e :: e in PollFrom(status, i, n).trace ==>
      e == GetDeployStatus || e == Sleep(PollIntervalSeconds)
    decreases n - i
  {
    if i < n {
      PollEvents(status, i + 1, n);
    }
  }

  /** A 200 status reply carrying the given status. */
  function StatusReply(s: string): Reply
  {
    Http(200, map["status" := s])
  }

  /** "queued", "build_in_progress", then "live": success on the third request. */
  lemma LiveOnThirdAttempt(status: nat -> Reply)
    requires status(0) == StatusReply("queued") && status(1) == StatusReply("build_in_progress")
    requires status(2) == StatusReply("live")
    ensures Wait(Some("dep-1"), 10, status) ==
      Polled(Completed, [GetDeployStatus, Sleep(30), GetDeployStatus, Sleep(30), GetDeployStatus])
  {
    assert PollFrom(status, 2, 20) == Polled(Completed, [GetDeployStatus]);
    assert PollFrom(status, 1, 20).trace == [GetDeployStatus, Sleep(30), GetDeployStatus];
  }

  /** "queued" then "build_failed": failure on the second request, reported
      as a failed deploy and not as a timeout. */
  lemma FailedOnSecondAttempt(status: nat -> Reply)
    requires status(0) == StatusReply("queued") && status(1) == StatusReply("build_failed")
    ensures Wait(Some("dep-1"), 10, status) ==
      Polled(DeployFailed("build_failed"), [GetDeployStatus, Sleep(30), GetDeployStatus])
  {
    assert PollFrom(status, 1, 20) == Polled(DeployFailed("build_failed"), [GetDeployStatus]);
  }

  /** One minute of waiting on a deploy that stays "queued": two requests, then
      a timeout. */
  lemma TimeoutAfterTwoAttempts(status: nat -> Reply)
    requires status(0) == StatusReply("queued") && status(1) == StatusReply("queued")
    ensures Wait(Some("dep-1"), 1, status) ==
      Polled(TimedOut, [GetDeployStatus, Sleep(30), GetDeployStatus, Sleep(30)])
  {
    assert PollFrom(status, 2, 2) == Polled(TimedOut, []);
    assert PollFrom(status, 1, 2).trace == [GetDeployStatus, Sleep(30)];
  }

  /** A transport error on the first request does not end the wait. */
  lemma TransientErrorThenLive(status: nat -> Reply)
    requires status(0) == Transport && status(1) == StatusReply("live")
    ensures Wait(Some("dep-1"), 10, status) ==
      Polled(Completed, [GetDeployStatus, Sleep(30), GetDeployStatus])
  {
    assert PollFrom(status, 1, 20) == Polled(Completed, [GetDeployStatus]);
  }
}
