/**
 * The per-instance health check and the cycle timing of the health
 * checker.  The clock readings and the probe are parameters: `now` is the
 * reading taken by the skip test, `startTime` the reading taken just before
 * the probe, and the probe outcome carries the reading taken when a
 * response arrived.
 */
module HealthChecker {
  import opened Wrappers
  import opened HealthStatuses
  import opened ServiceInstances

  /** Seconds from the start of one cycle to the start of the next, at least. */
  const HealthCheckInterval: real := 10.0
  /** Seconds a probe may take before it counts as timed out. */
  const HealthcheckResponseTimeout: real := 5.0
  /** Seconds a DEGRADED instance is left alone after its last check started. */
  const DegradedCheckInterval: real := 30.0
  /** The path probed on every instance. */
  const HealthPath: string := "/health"

  /**
   * What the bounded GET of `url + "/health"` came to: a response, with the
   * clock reading taken when it arrived; the 5-second bound expiring; or
   * any other error.
   */
  datatype ProbeOutcome = Responded(stopTime: real) | TimedOut | Failed

  /** A DEGRADED instance whose last check started less than 30 seconds ago is not probed. */
  predicate SkipDegradedInstance(s: InstanceState, now: real): (skip: bool)
    ensures skip ==> s.status == Some(Degraded)
  {
    s.status == Some(Degraded) && now - s.lastHealthcheckTime < DegradedCheckInterval
  }

  /**
   * A response faster than the bound classifies HEALTHY; any other
   * response time yields no status at all.
   */
  function DetermineHealthStatus(responseTime: real): (r: Option<HealthStatus>)
    ensures r.Some? <==> responseTime < HealthcheckResponseTimeout
    ensures r.Some? ==> r.value == Healthy
  {
    if responseTime < HealthcheckResponseTimeout then Some(Healthy) else None
  }

  /** The status a non-skipped check reports for a probe started at `startTime`. */
  function Classify(startTime: real, outcome: ProbeOutcome): (r: Option<HealthStatus>)
    ensures r == Some(Degraded) <==> outcome.TimedOut?
    ensures r == Some(Unhealthy) <==> outcome.Failed?
    ensures r == Some(Healthy) <==> outcome.Responded? && outcome.stopTime - startTime < HealthcheckResponseTimeout
    ensures r == None <==> outcome.Responded? && outcome.stopTime - startTime >= HealthcheckResponseTimeout
  {
    match outcome
    case Responded(stopTime) => DetermineHealthStatus(stopTime - startTime)
    case TimedOut => Some(Degraded)
    case Failed => Some(Unhealthy)
  }

  /**
   * The instance state after one check: unchanged when skipped; otherwise
   * exactly one report of the classification, then the start time of the
   * probe recorded, whatever the outcome.
   */
  function Check(s: InstanceState, threshold: nat, now: real, startTime: real, outcome: ProbeOutcome): (r: InstanceState)
    ensures SkipDegradedInstance(s, now) ==> r == s
    ensures !SkipDegradedInstance(s, now) ==> r.lastHealthcheckTime == startTime
    ensures !SkipDegradedInstance(s, now) ==>
              r.status == Report(s, Classify(startTime, outcome), threshold).status &&
              r.ctr == Report(s, Classify(startTime, outcome), threshold).ctr
    ensures s.ctr < threshold ==> r.ctr < threshold
  {
    if SkipDegradedInstance(s, now) then s
    else Report(s, Classify(startTime, outcome), threshold).(lastHealthcheckTime := startTime)
  }

  /**
   * Checks one instance: skips it, or probes `url + "/health"`, reports the
   * classification once and records the probe's start time.
   */
  method CheckInstanceHealth(instance: ServiceInstance, now: real, startTime: real, probe: string -> ProbeOutcome)
    requires instance.Valid()
    modifies instance`healthStatus, instance`stateTransitionCtr, instance`lastHealthcheckTime
    ensures instance.Valid()
    ensures instance.State() ==
            Check(old(instance.State()), instance.minStateTransitionRequests, now, startTime, probe(instance.url + HealthPath))
  {
    if SkipDegradedInstance(instance.State(), now) {
      return;
    }
    var url := instance.GetUrl();
    var healthStatus: Option<HealthStatus>;
    match probe(url + HealthPath) {
      case Responded(stopTime) =>
        var responseTime := stopTime - startTime;
        healthStatus := DetermineHealthStatus(responseTime);
      case TimedOut =>
        healthStatus := Some(Degraded);
      case Failed =>
        healthStatus := Some(Unhealthy);
    }
    instance.UpdateHealthStatus(healthStatus);
    instance.UpdateLastHealthcheckTime(startTime);
  }

  /**
   * Because the start time is recorded, an instance a check has left
   * DEGRADED is probed again exactly 30 seconds after that probe started.
   */
  lemma DegradedReprobedAfterInterval(s: InstanceState, threshold: nat, now: real, startTime: real, outcome: ProbeOutcome, later: real)
    requires !SkipDegradedInstance(s, now)
    requires Check(s, threshold, now, startTime, outcome).status == Some(Degraded)
    ensures SkipDegradedInstance(Check(s, threshold, now, startTime, outcome), later) <==> later < startTime + DegradedCheckInterval
  {
  }

  /**
   * A HEALTHY instance with a clear counter leaves rotation (as DEGRADED)
   * on its third timed-out check, and not before; timeouts interleaved with
   * fast responses still count towards the same three.
   */
  lemma IntermittentTimeoutsDegrade(t: real, n1: real, s1: real, n2: real, s2: real, stop2: real, n3: real, s3: real, n4: real, s4: real)
    requires stop2 - s2 < HealthcheckResponseTimeout
    ensures var h := InstanceState(Some(Healthy), 0, t);
            var c1 := Check(h, MinStateTransitionRequests, n1, s1, TimedOut);
            var c2 := Check(c1, MinStateTransitionRequests, n2, s2, Responded(stop2));
            var c3 := Check(c2, MinStateTransitionRequests, n3, s3, TimedOut);
            var c4 := Check(c3, MinStateTransitionRequests, n4, s4, TimedOut);
            c1.status == c2.status == c3.status == Some(Healthy) &&
            c3.ctr == 2 &&
            c4 == InstanceState(Some(Degraded), 0, s4)
  {
  }

  /**
   * Three responses at or over the bound commit "no status" on a fresh
   * instance; such an instance is then neither skipped nor HEALTHY.
   */
  lemma SlowResponsesCommitNoStatus(t: real, n1: real, s1: real, n2: real, s2: real, n3: real, s3: real, stop1: real, stop2: real, stop3: real, later: real)
    requires stop1 - s1 >= HealthcheckResponseTimeout
    requires stop2 - s2 >= HealthcheckResponseTimeout
    requires stop3 - s3 >= HealthcheckResponseTimeout
    ensures var c1 := Check(Fresh(t), MinStateTransitionRequests, n1, s1, Responded(stop1));
            var c2 := Check(c1, MinStateTransitionRequests, n2, s2, Responded(stop2));
            var c3 := Check(c2, MinStateTransitionRequests, n3, s3, Responded(stop3));
            c3 == InstanceState(None, 0, s3) && !SkipDegradedInstance(c3, later)
  {
  }

  /** How long a cycle that took `elapsed` seconds sleeps, if at all. */
  function SleepDuration(elapsed: real): (d: Option<real>)
    ensures d.Some? <==> elapsed < HealthCheckInterval
    ensures d.Some? ==> d.value > 0.0 && elapsed + d.value == HealthCheckInterval
  {
    if elapsed < HealthCheckInterval then Some(HealthCheckInterval - elapsed) else None
  }

  /** When the next cycle starts, for a cycle started at `cycleStart` that took `elapsed` seconds. */
  function NextCycleStart(cycleStart: real, elapsed: real): real
  {
    cycleStart + elapsed + match SleepDuration(elapsed) case Some(d) => d case None => 0.0
  }

  /**
   * Consecutive cycles start at least 10 seconds apart, and a slow cycle
   * is followed at once by the next: no catch-up, no skipped cycle.
   */
  lemma CycleSpacing(cycleStart: real, elapsed: real)
    ensures NextCycleStart(cycleStart, elapsed) >= cycleStart + HealthCheckInterval
    ensures NextCycleStart(cycleStart, elapsed) >= cycleStart + elapsed
    ensures elapsed < HealthCheckInterval ==> NextCycleStart(cycleStart, elapsed) == cycleStart + HealthCheckInterval
    ensures elapsed >= HealthCheckInterval ==> NextCycleStart(cycleStart, elapsed) == cycleStart + elapsed
  {
  }
}
