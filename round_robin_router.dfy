/**
 * Round-robin selection over a fixed, ordered list of instances.  One call
 * inspects at most N instances starting at the cursor, advances the cursor
 * by one (mod N) on every inspection and returns the URL of the first
 * HEALTHY instance.  Each call is atomic (the source holds a lock for the
 * whole scan), so a sequential method is the serialised semantics.
 */
module RoundRobin {
  import opened Wrappers
  import opened HealthStatuses
  import opened ServiceInstances

  /** Raised when a full scan finds no HEALTHY instance. */
  datatype SelectionError = NoHealthyInstances

  /** What `route` raises: the selection's error, or the transport's error unchanged. */
  datatype RouteError<+E> = Selection(reason: SelectionError) | Transport(cause: E)

  predicate IsHealthy(st: Option<HealthStatus>) {
    st == Some(Healthy)
  }

  /** The statuses of the instances, in list order. */
  function StatusesOf(instances: seq<ServiceInstance>): (s: seq<Option<HealthStatus>>)
    reads instances
    ensures |s| == |instances|
    ensures forall i :: 0 <= i < |instances| ==> s[i] == instances[i].healthStatus
    decreases |instances|
  {
    if instances == [] then [] else [instances[0].healthStatus] + StatusesOf(instances[1..])
  }

  /** A valid cursor indexes the list; on an empty list it stays 0. */
  predicate ValidCursor(n: nat, cursor: nat) {
    if n == 0 then cursor == 0 else cursor < n
  }

  /** The index `steps` advances of one (mod n) past `cursor`, for at most n steps. */
  function Advance(cursor: nat, steps: nat, n: nat): (i: nat)
    requires cursor < n && steps <= n
    ensures i < n
  {
    if cursor + steps < n then cursor + steps else cursor + steps - n
  }

  /** The status seen by the inspection made after `j` advances from `cursor`. */
  function Inspected(statuses: seq<Option<HealthStatus>>, cursor: nat, j: nat): Option<HealthStatus>
    requires cursor < |statuses| && j < |statuses|
  {
    statuses[Advance(cursor, j, |statuses|)]
  }

  /**
   * The number of advances, from `cursor`, to the first HEALTHY status
   * among the inspections `k`, `k+1`, ..., `N-1`, if there is one.
   */
  function ScanFrom(statuses: seq<Option<HealthStatus>>, cursor: nat, k: nat): (r: Option<nat>)
    requires cursor < |statuses| && k <= |statuses|
    ensures r.Some? ==> k <= r.value < |statuses| && IsHealthy(Inspected(statuses, cursor, r.value))
    ensures r.Some? ==> forall j :: k <= j < r.value ==> !IsHealthy(Inspected(statuses, cursor, j))
    ensures r.None? ==> forall j :: k <= j < |statuses| ==> !IsHealthy(Inspected(statuses, cursor, j))
    decreases |statuses| - k
  {
    if k == |statuses| then None
    else if IsHealthy(Inspected(statuses, cursor, k)) then Some(k)
    else ScanFrom(statuses, cursor, k + 1)
  }

  /** The result of one selection: the chosen index, if any, and how many instances were inspected. */
  datatype Pick = Pick(chosen: Option<nat>, inspected: nat)

  /**
   * One selection from `cursor`: the first HEALTHY instance in cyclic order
   * from the cursor, every instance inspected before it being non-HEALTHY
   * (DEGRADED is skipped like UNHEALTHY); with none, all N were inspected.
   */
  function Select(statuses: seq<Option<HealthStatus>>, cursor: nat): (p: Pick)
    requires ValidCursor(|statuses|, cursor)
    ensures p.inspected <= |statuses|
    ensures p.chosen.Some? ==>
              1 <= p.inspected && p.chosen.value == Advance(cursor, p.inspected - 1, |statuses|) &&
              IsHealthy(statuses[p.chosen.value])
    ensures p.chosen.Some? ==> forall j :: 0 <= j < p.inspected - 1 ==> !IsHealthy(Inspected(statuses, cursor, j))
    ensures p.chosen.None? ==> p.inspected == |statuses|
    ensures p.chosen.None? ==> forall j :: 0 <= j < |statuses| ==> !IsHealthy(Inspected(statuses, cursor, j))
  {
    if |statuses| == 0 then Pick(None, 0)
    else match ScanFrom(statuses, cursor, 0)
      case Some(k) => Pick(Some(Advance(cursor, k, |statuses|)), k + 1)
      case None => Pick(None, |statuses|)
  }

  /** The cursor after a selection: each inspection has advanced it by one, mod N. */
  function NextCursor(statuses: seq<Option<HealthStatus>>, cursor: nat): (c: nat)
    requires ValidCursor(|statuses|, cursor)
    ensures ValidCursor(|statuses|, c)
  {
    if |statuses| == 0 then cursor else Advance(cursor, Select(statuses, cursor).inspected, |statuses|)
  }

  /** The source's `(c + 1) % n` on a valid cursor. */
  lemma ModSuccessor(c: nat, n: nat)
    requires c < n
    ensures (c + 1) % n == if c + 1 == n then 0 else c + 1
  {
  }

  /** Advancing one more step is the source's `(c + 1) % n` applied once more. */
  lemma AdvanceStep(cursor: nat, steps: nat, n: nat)
    requires cursor < n && steps < n
    ensures Advance(cursor, steps + 1, n) == (Advance(cursor, steps, n) + 1) % n
  {
    ModSuccessor(Advance(cursor, steps, n), n);
  }

  /**
   * After choosing index i the cursor is (i + 1) mod N; after finding no
   * HEALTHY instance it is back where it started.
   */
  lemma NextCursorAfterSelect(statuses: seq<Option<HealthStatus>>, cursor: nat)
    requires ValidCursor(|statuses|, cursor)
    ensures ValidCursor(|statuses|, NextCursor(statuses, cursor))
    ensures Select(statuses, cursor).chosen.Some? ==>
              NextCursor(statuses, cursor) == (Select(statuses, cursor).chosen.value + 1) % |statuses|
    ensures Select(statuses, cursor).chosen.None? ==> NextCursor(statuses, cursor) == cursor
  {
    var p := Select(statuses, cursor);
    if p.chosen.Some? {
      AdvanceStep(cursor, p.inspected - 1, |statuses|);
    }
  }

  /** Every index of the list is looked at by exactly one of the N inspections of a scan. */
  lemma InspectionReaches(statuses: seq<Option<HealthStatus>>, cursor: nat, i: nat)
    requires cursor < |statuses| && i < |statuses|
    ensures var j := if cursor <= i then i - cursor else i + |statuses| - cursor;
            j < |statuses| && Inspected(statuses, cursor, j) == statuses[i]
  {
  }

  /** A selection fails exactly when no instance, anywhere in the list, is HEALTHY. */
  lemma {:induction false} SelectFailsIffNoneHealthy(statuses: seq<Option<HealthStatus>>, cursor: nat)
    requires ValidCursor(|statuses|, cursor)
    ensures Select(statuses, cursor).chosen.None? <==> forall i :: 0 <= i < |statuses| ==> !IsHealthy(statuses[i])
  {
    var p := Select(statuses, cursor);
    if p.chosen.None? {
      forall i | 0 <= i < |statuses| ensures !IsHealthy(statuses[i]) {
        InspectionReaches(statuses, cursor, i);
      }
    }
  }

  /** With every instance HEALTHY, each call returns the instance at the cursor and moves on by one. */
  lemma AllHealthyTakesCursor(statuses: seq<Option<HealthStatus>>, cursor: nat)
    requires ValidCursor(|statuses|, cursor) && |statuses| > 0
    requires forall i :: 0 <= i < |statuses| ==> IsHealthy(statuses[i])
    ensures Select(statuses, cursor) == Pick(Some(cursor), 1)
    ensures NextCursor(statuses, cursor) == (cursor + 1) % |statuses|
  {
    AdvanceStep(cursor, 0, |statuses|);
  }

  /** Two fully healthy instances are selected in strict alternation. */
  lemma TwoHealthyAlternate(statuses: seq<Option<HealthStatus>>, cursor: nat)
    requires |statuses| == 2 && cursor < 2
    requires IsHealthy(statuses[0]) && IsHealthy(statuses[1])
    ensures Select(statuses, cursor).chosen == Some(cursor)
    ensures Select(statuses, NextCursor(statuses, cursor)).chosen == Some(1 - cursor)
  {
    AllHealthyTakesCursor(statuses, cursor);
    AllHealthyTakesCursor(statuses, NextCursor(statuses, cursor));
  }

  /** [HEALTHY, UNHEALTHY, HEALTHY] from cursor 0 yields index 0, then index 2. */
  lemma UnhealthyInstanceSkipped()
    ensures var s := [Some(Healthy), Some(Unhealthy), Some(Healthy)];
            Select(s, 0).chosen == Some(0) && NextCursor(s, 0) == 1 &&
            Select(s, 1).chosen == Some(2) && NextCursor(s, 1) == 0
  {
    var s := [Some(Healthy), Some(Unhealthy), Some(Healthy)];
    assert ScanFrom(s, 0, 0) == Some(0);
    assert ScanFrom(s, 1, 1) == Some(1);
    assert ScanFrom(s, 1, 0) == Some(1);
  }

  /** [HEALTHY, DEGRADED, HEALTHY] from cursor 0 yields index 0, 2, then 0 again. */
  lemma DegradedInstanceSkipped()
    ensures var s := [Some(Healthy), Some(Degraded), Some(Healthy)];
            Select(s, 0).chosen == Some(0) && NextCursor(s, 0) == 1 &&
            Select(s, 1).chosen == Some(2) && NextCursor(s, 1) == 0
  {
    var s := [Some(Healthy), Some(Degraded), Some(Healthy)];
    assert ScanFrom(s, 0, 0) == Some(0);
    assert ScanFrom(s, 1, 1) == Some(1);
    assert ScanFrom(s, 1, 0) == Some(1);
  }

  class RoundRobinRouter {
    const svcInstances: seq<ServiceInstance>
    var curIndex: nat
    /** The URLs `Route` has posted to, oldest first. */
    ghost var posts: seq<string>

    ghost predicate Valid()
      reads this
    {
      ValidCursor(|svcInstances|, curIndex)
    }

    constructor (instances: seq<ServiceInstance>)
      ensures svcInstances == instances && curIndex == 0 && posts == []
      ensures Valid()
    {
      svcInstances := instances;
      curIndex := 0;
      posts := [];
    }

    /**
     * Returns the URL of the instance `Select` chooses from the current
     * cursor and leaves the cursor at `NextCursor`; raises when none is
     * HEALTHY.  No instance is modified.
     */
    method GetNextServiceInstance() returns (r: Result<string, SelectionError>)
      requires Valid()
      modifies this`curIndex
      ensures Valid()
      ensures r.Ok? <==> Select(old(StatusesOf(svcInstances)), old(curIndex)).chosen.Some?
      ensures r.Ok? ==> r.value == svcInstances[Select(old(StatusesOf(svcInstances)), old(curIndex)).chosen.value].url
      ensures r.Err? ==> r.error == NoHealthyInstances
      ensures curIndex == NextCursor(old(StatusesOf(svcInstances)), old(curIndex))
    {
      ghost var statuses := StatusesOf(svcInstances);
      ghost var start := curIndex;
      var numInstances := |svcInstances|;
      var i := 0;
      while i < numInstances
        invariant 0 <= i <= numInstances
        invariant numInstances > 0 ==> curIndex == Advance(start, i, numInstances)
        invariant numInstances == 0 ==> curIndex == start
        invariant numInstances > 0 ==> ScanFrom(statuses, start, 0) == ScanFrom(statuses, start, i)
      {
        var curInstance := svcInstances[curIndex];
        assert curInstance.healthStatus == Inspected(statuses, start, i);
        AdvanceStep(start, i, numInstances);
        curIndex := (curIndex + 1) % numInstances;
        var status := curInstance.GetHealthStatus();
        if status == Some(Healthy) {
          var url := curInstance.GetUrl();
          assert ScanFrom(statuses, start, i) == Some(i);
          return Ok(url);
        }
        i := i + 1;
      }
      r := Err(NoHealthyInstances);
    }

    /**
     * Posts the payload, unchanged, to the selected URL followed by the
     * endpoint and returns the transport's answer; raises without posting
     * when selection raises.  Each post made is appended to `posts`.
     */
    method Route<P, R, E>(endpoint: string, payload: P, post: (string, P) -> Result<R, E>)
      returns (r: Result<R, RouteError<E>>)
      requires Valid()
      modifies this`curIndex, this`posts
      ensures Valid()
      ensures curIndex == NextCursor(old(StatusesOf(svcInstances)), old(curIndex))
      ensures var p := Select(old(StatusesOf(svcInstances)), old(curIndex));
              if p.chosen.None? then
                posts == old(posts) && r == Err(Selection(NoHealthyInstances))
              else
                var target := svcInstances[p.chosen.value].url + endpoint;
                posts == old(posts) + [target] &&
                r == match post(target, payload)
                     case Ok(response) => Ok(response)
                     case Err(e) => Err(Transport(e))
    {
      var selected := GetNextServiceInstance();
      if selected.Err? {
        return Err(Selection(selected.error));
      }
      var targetUrl := selected.value + endpoint;
      posts := posts + [targetUrl];
      match post(targetUrl, payload) {
        case Ok(response) => r := Ok(response);
        case Err(e) => r := Err(Transport(e));
      }
    }
  }

  /** A new instance that has received three reports of `status`, which is not UNHEALTHY. */
  method ReportedInstance(url: string, t: real, status: HealthStatus) returns (inst: ServiceInstance)
    requires status != Unhealthy
    ensures fresh(inst) && inst.Valid()
    ensures inst.url == url && inst.healthStatus == Some(status)
  {
    inst := new ServiceInstance(url, t);
    inst.UpdateHealthStatus(Some(status));
    inst.UpdateHealthStatus(Some(status));
    inst.UpdateHealthStatus(Some(status));
  }

  /**
   * The degraded-instance scenario run against the classes themselves:
   * instances reported HEALTHY, DEGRADED and HEALTHY three times each are
   * selected in the order 0, 2, 0.
   */
  method DegradedInstanceSkippedScenario(t: real) returns (urls: seq<Result<string, SelectionError>>)
    ensures urls == [Ok("http://localhost:9990"), Ok("http://localhost:9992"), Ok("http://localhost:9990")]
  {
    var a := ReportedInstance("http://localhost:9990", t, Healthy);
    var b := ReportedInstance("http://localhost:9991", t, Degraded);
    var c := ReportedInstance("http://localhost:9992", t, Healthy);
    var router := new RoundRobinRouter([a, b, c]);
    ghost var s := [Some(Healthy), Some(Degraded), Some(Healthy)];
    assert StatusesOf([a, b, c]) == s;
    DegradedInstanceSkipped();
    var url1 := router.GetNextServiceInstance();
    assert url1 == Ok("http://localhost:9990") && router.curIndex == 1;
    var url2 := router.GetNextServiceInstance();
    assert url2 == Ok("http://localhost:9992") && router.curIndex == 0;
    var url3 := router.GetNextServiceInstance();
    assert url3 == Ok("http://localhost:9990");
    urls := [url1, url2, url3];
  }
}
