/**
 * One downstream instance: its URL, its debounced health status and the
 * time its last health check started.  A report that differs from the
 * current status only commits once the transition counter reaches the
 * threshold (hysteresis).
 */
module ServiceInstances {
  import opened Wrappers
  import opened HealthStatuses

  /** The number of differing reports needed before a status change commits. */
  const MinStateTransitionRequests: nat := 3

  /**
   * What an instance's mutable fields hold.  The status is optional because
   * the health checker can report "no status" (see HealthChecker), and
   * such a report is counted and committed like any other.
   */
  datatype InstanceState = InstanceState(status: Option<HealthStatus>, ctr: nat, lastHealthcheckTime: real)

  /**
   * The effect of one `update_health_status(newStatus)` call.  The counter
   * counts reports that differ from the current status since the last
   * commit; it is reset neither by a report of the current status nor by a
   * change of candidate.
   */
  function Report(s: InstanceState, newStatus: Option<HealthStatus>, threshold: nat): (r: InstanceState)
    ensures r.lastHealthcheckTime == s.lastHealthcheckTime
    ensures s.ctr < threshold ==> r.ctr < threshold
    ensures newStatus == s.status ==> r == s
    ensures newStatus != s.status && s.ctr + 1 < threshold ==> r.status == s.status && r.ctr == s.ctr + 1
    ensures r.status != s.status <==> newStatus != s.status && s.ctr + 1 >= threshold
    ensures r.status != s.status ==> r.status == newStatus && r.ctr == 0
  {
    if newStatus == s.status then s
    else if s.ctr + 1 < threshold then s.(ctr := s.ctr + 1)
    else s.(status := newStatus, ctr := 0)
  }

  /** The state after a sequence of reports, oldest first. */
  function RunReports(s: InstanceState, reports: seq<Option<HealthStatus>>, threshold: nat): InstanceState
    decreases |reports|
  {
    if reports == [] then s else RunReports(Report(s, reports[0], threshold), reports[1..], threshold)
  }

  /** The number of reports that differ from `status`. */
  function Differing(status: Option<HealthStatus>, reports: seq<Option<HealthStatus>>): (n: nat)
    ensures n <= |reports|
    decreases |reports|
  {
    if reports == [] then 0
    else (if reports[0] != status then 1 else 0) + Differing(status, reports[1..])
  }

  /** Running two sequences of reports one after the other is running their concatenation. */
  lemma {:induction false} RunReportsAppend(s: InstanceState, a: seq<Option<HealthStatus>>, b: seq<Option<HealthStatus>>, threshold: nat)
    ensures RunReports(s, a + b, threshold) == RunReports(RunReports(s, a, threshold), b, threshold)
    decreases |a|
  {
    if a == [] {
      assert a + b == b;
    } else {
      assert (a + b)[0] == a[0];
      assert (a + b)[1..] == a[1..] + b;
      RunReportsAppend(Report(s, a[0], threshold), a[1..], b, threshold);
    }
  }

  /**
   * As long as the differing reports do not bring the counter to the
   * threshold, the status stays as it is and the counter has grown by
   * exactly the number of differing reports, whatever their order and
   * however they are interleaved with reports of the current status.
   */
  lemma {:induction false} BelowThresholdKeepsStatus(s: InstanceState, reports: seq<Option<HealthStatus>>, threshold: nat)
    requires s.ctr + Differing(s.status, reports) < threshold
    ensures RunReports(s, reports, threshold) == s.(ctr := s.ctr + Differing(s.status, reports))
    decreases |reports|
  {
    if reports != [] {
      var s' := Report(s, reports[0], threshold);
      assert s'.status == s.status;
      BelowThresholdKeepsStatus(s', reports[1..], threshold);
    }
  }

  /**
   * The differing report that brings the counter to the threshold commits
   * the status it carries, whatever the earlier differing reports said,
   * and resets the counter.
   */
  lemma {:induction false} ThresholdReportCommits(s: InstanceState, prefix: seq<Option<HealthStatus>>, x: Option<HealthStatus>, threshold: nat)
    requires x != s.status
    requires s.ctr + Differing(s.status, prefix) + 1 == threshold
    ensures RunReports(s, prefix + [x], threshold) == InstanceState(x, 0, s.lastHealthcheckTime)
  {
    RunReportsAppend(s, prefix, [x], threshold);
    BelowThresholdKeepsStatus(s, prefix, threshold);
    var mid := RunReports(s, prefix, threshold);
    assert RunReports(mid, [x], threshold) == RunReports(Report(mid, x, threshold), [], threshold);
  }

  /**
   * The status can only have changed after at least as many differing
   * reports as the counter was short of the threshold.
   */
  lemma StatusChangeNeedsEnoughReports(s: InstanceState, reports: seq<Option<HealthStatus>>, threshold: nat)
    requires RunReports(s, reports, threshold).status != s.status
    ensures s.ctr + Differing(s.status, reports) >= threshold
  {
    if s.ctr + Differing(s.status, reports) < threshold {
      BelowThresholdKeepsStatus(s, reports, threshold);
    }
  }

  /** The state of a freshly constructed instance. */
  function Fresh(now: real): (s: InstanceState)
    ensures s.status == Some(Unhealthy) && s.ctr == 0 && s.lastHealthcheckTime == now
  {
    InstanceState(Some(Unhealthy), 0, now)
  }

  /**
   * From a fresh instance, the third report that is not UNHEALTHY commits
   * the status it carries, however the earlier ones were mixed.
   */
  lemma FreshThirdDifferingReportCommits(now: real, prefix: seq<Option<HealthStatus>>, x: Option<HealthStatus>)
    requires Differing(Some(Unhealthy), prefix) == 2
    requires x != Some(Unhealthy)
    ensures RunReports(Fresh(now), prefix + [x], MinStateTransitionRequests).status == x
  {
    ThresholdReportCommits(Fresh(now), prefix, x, MinStateTransitionRequests);
  }

  /** HEALTHY, DEGRADED, HEALTHY from a fresh instance: the instance becomes HEALTHY. */
  lemma MixedCandidatesCommitLastReport(now: real)
    ensures RunReports(Fresh(now), [Some(Healthy), Some(Degraded), Some(Healthy)], MinStateTransitionRequests)
         == InstanceState(Some(Healthy), 0, now)
  {
    FreshThirdDifferingReportCommits(now, [Some(Healthy), Some(Degraded)], Some(Healthy));
    assert [Some(Healthy), Some(Degraded)] + [Some(Healthy)] == [Some(Healthy), Some(Degraded), Some(Healthy)];
  }

  class ServiceInstance {
    const url: string
    var healthStatus: Option<HealthStatus>
    var lastHealthcheckTime: real
    var stateTransitionCtr: nat
    const minStateTransitionRequests: nat

    /** The counter always stays strictly below the threshold of 3. */
    ghost predicate Valid()
      reads this
    {
      minStateTransitionRequests == MinStateTransitionRequests &&
      stateTransitionCtr < minStateTransitionRequests
    }

    function State(): InstanceState
      reads this
    {
      InstanceState(healthStatus, stateTransitionCtr, lastHealthcheckTime)
    }

    /** A new instance starts UNHEALTHY; `now` is the clock reading at construction. */
    constructor (url: string, now: real)
      ensures this.url == url
      ensures State() == Fresh(now)
      ensures minStateTransitionRequests == 3
      ensures Valid()
    {
      this.url := url;
      healthStatus := Some(Unhealthy);
      lastHealthcheckTime := now;
      stateTransitionCtr := 0;
      minStateTransitionRequests := MinStateTransitionRequests;
    }

    method UpdateHealthStatus(newStatus: Option<HealthStatus>)
      requires Valid()
      modifies this`healthStatus, this`stateTransitionCtr
      ensures Valid()
      ensures State() == Report(old(State()), newStatus, minStateTransitionRequests)
      ensures newStatus == old(healthStatus) ==> healthStatus == old(healthStatus) && stateTransitionCtr == old(stateTransitionCtr)
      ensures newStatus != old(healthStatus) && old(stateTransitionCtr) + 1 < minStateTransitionRequests ==>
                healthStatus == old(healthStatus) && stateTransitionCtr == old(stateTransitionCtr) + 1
      ensures newStatus != old(healthStatus) && old(stateTransitionCtr) + 1 == minStateTransitionRequests ==>
                healthStatus == newStatus && stateTransitionCtr == 0
    {
      if newStatus == healthStatus {
        return;
      }
      stateTransitionCtr := stateTransitionCtr + 1;
      if stateTransitionCtr < minStateTransitionRequests {
        return;
      }
      healthStatus := newStatus;
      stateTransitionCtr := 0;
    }

    method GetHealthStatus() returns (s: Option<HealthStatus>)
      ensures s == healthStatus
    {
      s := healthStatus;
    }

    method GetUrl() returns (u: string)
      ensures u == url
    {
      u := url;
    }

    method GetLastHealthcheckTime() returns (t: real)
      ensures t == lastHealthcheckTime
    {
      t := lastHealthcheckTime;
    }

    method UpdateLastHealthcheckTime(checkTime: real)
      modifies this`lastHealthcheckTime
      ensures State() == old(State()).(lastHealthcheckTime := checkTime)
      ensures Valid() == old(Valid())
    {
      lastHealthcheckTime := checkTime;
    }
  }
}
