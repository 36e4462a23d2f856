# router-service core in Dafny

A model of the core of a small Python reverse proxy. It routes each request to a
downstream instance chosen round-robin among the HEALTHY ones. A background health
checker probes every instance and feeds the results into a per-instance hysteresis
counter, so one bad probe does not take an instance out of rotation.

Modules, one per source file:

- `Wrappers` (`wrappers.dfy`): `Option` (Python's `None`) and `Result` (a value, or the exception an operation raises).
- `HealthStatuses` (`health_status.dfy`): the `HealthStatus` enum `Healthy | Unhealthy | Degraded`.
- `ServiceInstances` (`service_instance.dfy`): the `ServiceInstance` class, with its URL (a `const`, so no method can change it), status, transition counter, threshold and last health-check time. The pure step `Report` specifies `UpdateHealthStatus`. `RunReports` folds `Report` over a sequence of reports; the lemmas are about it.
- `RoundRobin` (`round_robin_router.dfy`): the `RoundRobinRouter` class, with its fixed instance list and its cursor. The pure `Select`/`NextCursor` pair specifies one selection. `GetNextServiceInstance` keeps the source's loop, and `Route` hands the request to a transport passed in as a function.
- `HealthChecker` (`health_checker.dfy`): the skip test, the response-time classification, one instance check (`CheckInstanceHealth`, specified by the pure `Check`) and the cycle sleep rule.

Decisions where the model follows what the code does:

- **No counter reset.** The docstring of `update_health_status` (src/models/service_instance.py:20-24) promises a change only after "consecutive requests with same health status". Lines 25-36 do otherwise: they reset the counter only when a status commits. Any status that differs from the current one counts, a report of the current status leaves the counter as it is, and the differing report that brings the counter to 3 commits whatever status it carries. The model follows lines 25-36 (`BelowThresholdKeepsStatus`, `ThresholdReportCommits`, `MixedCandidatesCommitLastReport`, `IntermittentTimeoutsDegrade`).
- **An absent status can be committed.** `determine_health_status` returns no value for a response time of 5 seconds or more. `update_health_status` then counts that absent value as a differing report, and a third one commits it as the status. So the status is modelled as `Option<HealthStatus>` (`SlowResponsesCommitNoStatus`).
- **Errors are not re-wrapped.** src/router/round_robin_router.py:33 raises a generic `Exception` when no instance is HEALTHY, and line 38 lets transport errors propagate unchanged. `RouteError` is only the sum of those two.
- **Constants are hard-coded.** src/health/health_checker.py:28 comments out the read of `health_check_interval`, and the comment at line 62 marks the 30 as a stand-in for `degraded_check_interval`. The code hard-codes 10 seconds (cycle), 5 seconds (probe bound and HEALTHY cutoff), 30 seconds (degraded skip window) and 3 (transition threshold). The model uses these constants.

Timestamps are `real`, because the source only subtracts and compares them. Every clock reading is a parameter: the construction time, the skip test's `now`, the probe's `startTime`, and the probe's stop time, which is carried by the `Responded` outcome. The HTTP probe is a function `string -> ProbeOutcome`, and the transport's `post` is a function `(string, P) -> Result<R, E>`.

## Model

| member | source | states |
|---|---|---|
| `ServiceInstances.ServiceInstance.constructor` | src/models/service_instance.py:11-17 | A new instance stores the given URL, starts UNHEALTHY, has counter 0 and threshold 3, and records the construction time. |
| `ServiceInstances.Report` | src/models/service_instance.py:19-37 | One report keeps the counter below the threshold and leaves the check time alone. A report equal to the status changes nothing. Otherwise, below the threshold, the counter goes up by exactly 1 and the status stays. The status changes iff the report differs and the counter reaches the threshold; it then becomes the reported value and the counter resets to 0. |
| `ServiceInstances.ServiceInstance.UpdateHealthStatus` | src/models/service_instance.py:19-37 | The new status and counter are `Report` of the old ones. The three cases hold on the fields: same status leaves both fields unchanged; below the threshold, +1 with the status unchanged; at the threshold, commit and reset. The counter invariant `0 <= ctr < 3` is kept. |
| `ServiceInstances.BelowThresholdKeepsStatus` | src/models/service_instance.py:20-33 | If the differing reports in any sequence do not bring the counter to the threshold, the status is unchanged and the counter has grown by exactly their number. Same-status reports in between do not reset it. |
| `ServiceInstances.ThresholdReportCommits` | src/models/service_instance.py:28-36 | The differing report that brings the counter to the threshold commits its own status and resets the counter, whatever candidates came before it. |
| `ServiceInstances.StatusChangeNeedsEnoughReports` | src/models/service_instance.py:28-36 | For any sequence of reports, if the status changed, there were at least as many differing reports as the counter was short of the threshold. |
| `ServiceInstances.FreshThirdDifferingReportCommits` | src/models/service_instance.py:11-36 | From a fresh instance, the third report that is not UNHEALTHY commits its own status, however the reports before it were mixed. |
| `ServiceInstances.MixedCandidatesCommitLastReport` | src/models/service_instance.py:20-36 | From a fresh instance, the reports HEALTHY, DEGRADED, HEALTHY leave it HEALTHY with counter 0: a change of candidate does not reset the counter. |
| `ServiceInstances.ServiceInstance.GetHealthStatus` | src/models/service_instance.py:39-40 | Returns the current status. |
| `ServiceInstances.ServiceInstance.GetUrl` | src/models/service_instance.py:42-43 | Returns the URL given at construction. |
| `ServiceInstances.ServiceInstance.GetLastHealthcheckTime` | src/models/service_instance.py:45-46 | Returns the recorded check time. |
| `ServiceInstances.ServiceInstance.UpdateLastHealthcheckTime` | src/models/service_instance.py:48-49 | Overwrites the check time and nothing else. |
| `RoundRobin.ScanFrom` | src/router/round_robin_router.py:23-30 | Finds the first inspection, from a given one on, that sees a HEALTHY instance, and every inspection before it sees a non-HEALTHY one. A result of none means that no remaining inspection sees a HEALTHY instance. |
| `RoundRobin.Select` | src/router/round_robin_router.py:22-33 | One call inspects at most N instances. The chosen index is the first HEALTHY one in cyclic order from the cursor. Every instance inspected before it is not HEALTHY, so DEGRADED is skipped like UNHEALTHY. With no choice, all N instances were inspected. |
| `RoundRobin.NextCursor` | src/router/round_robin_router.py:25 | The cursor after a selection, advanced once per inspection, is again a valid index: in [0, N), or 0 on an empty list. |
| `RoundRobin.ModSuccessor` | src/router/round_robin_router.py:25 | On a valid cursor, the source's `(c + 1) % n` is the next index, wrapping to 0 after the last. |
| `RoundRobin.NextCursorAfterSelect` | src/router/round_robin_router.py:22-33 | The cursor stays in [0, N). After index i is chosen it is (i + 1) mod N. With no HEALTHY instance it ends where it started. |
| `RoundRobin.SelectFailsIffNoneHealthy` | src/router/round_robin_router.py:22-33 | Selection fails if and only if no instance in the whole list is HEALTHY. An empty list fails. |
| `RoundRobin.AllHealthyTakesCursor` | src/router/round_robin_router.py:23-27 | With every instance HEALTHY, a call returns the instance at the cursor and advances the cursor by one. |
| `RoundRobin.TwoHealthyAlternate` | src/router/round_robin_router.py:19-27 | Two HEALTHY instances are selected in strict alternation. |
| `RoundRobin.UnhealthyInstanceSkipped` | tests/router/test_round_robin_router.py:12-35 | With [HEALTHY, UNHEALTHY, HEALTHY] and the cursor at 0, the calls return index 0 and then index 2. |
| `RoundRobin.DegradedInstanceSkipped` | tests/router/test_round_robin_router.py:39-63 | With [HEALTHY, DEGRADED, HEALTHY], the calls return index 0, then 2, and the cursor is back at 0, so the next call returns index 0 again. |
| `RoundRobin.RoundRobinRouter.constructor` | src/router/round_robin_router.py:13-17 | The router keeps the given instance list, its cursor starts at 0 and it has posted nothing. |
| `RoundRobin.RoundRobinRouter.GetNextServiceInstance` | src/router/round_robin_router.py:19-33 | Returns the URL of the instance `Select` chooses and leaves the cursor at `NextCursor`. It raises `NoHealthyInstances` exactly when `Select` chooses nothing. It modifies only the cursor, so no instance and no status changes. |
| `RoundRobin.RoundRobinRouter.Route` | src/router/round_robin_router.py:36-38 | Posts the unchanged payload to the selected URL with the endpoint appended, and returns the transport's response or its error. The ghost log `posts` gains exactly that URL. If selection raises, the log is unchanged, so nothing was posted, and the selection error is returned. |
| `RoundRobin.DegradedInstanceSkippedScenario` | tests/router/test_round_robin_router.py:39-63 | Builds real instances reported HEALTHY, DEGRADED and HEALTHY and a router over them. Three calls return the URLs ending 9990, 9992 and 9990, proved from the class contracts alone. |
| `HealthChecker.SkipDegradedInstance` | src/health/health_checker.py:60-68 | Only a DEGRADED instance is ever skipped. |
| `HealthChecker.DetermineHealthStatus` | src/health/health_checker.py:70-72 | A response time under 5 gives HEALTHY. Any other response time gives no status, and never DEGRADED or UNHEALTHY. |
| `HealthChecker.Classify` | src/health/health_checker.py:37-54 | DEGRADED iff the probe timed out. UNHEALTHY iff the probe failed any other way. HEALTHY iff it responded in under 5 seconds from its start. No status iff it responded after 5 seconds or more. |
| `HealthChecker.Check` | src/health/health_checker.py:32-58 | A skipped check changes nothing. A check that is not skipped applies exactly one report of the classification and then records the probe's start time, whatever the outcome. The counter invariant is kept. |
| `HealthChecker.CheckInstanceHealth` | src/health/health_checker.py:32-58 | The instance's new state is `Check` of its old state, for the outcome of probing `url + "/health"`. |
| `HealthChecker.DegradedReprobedAfterInterval` | src/health/health_checker.py:55-68 | After a check leaves an instance DEGRADED, the instance is skipped exactly until 30 seconds after that probe started. |
| `HealthChecker.IntermittentTimeoutsDegrade` | src/health/health_checker.py:37-58 | A HEALTHY instance with counter 0 stays HEALTHY through two timeouts. A fast response in between does not reset the count. The third timeout makes it DEGRADED and records that probe's start time. |
| `HealthChecker.SlowResponsesCommitNoStatus` | src/health/health_checker.py:43-51 | Three responses at or over 5 seconds give a fresh instance no status. Such an instance is then neither skipped nor HEALTHY. |
| `HealthChecker.SleepDuration` | src/health/health_checker.py:27-30 | A cycle sleeps iff it took less than 10 seconds. It then sleeps a positive time that brings it to exactly 10 seconds. |
| `HealthChecker.CycleSpacing` | src/health/health_checker.py:22-30 | The next cycle starts at the later of 10 seconds after this cycle's start and the end of its probes. |

## Left out

- `Router` (src/router/base_router.py): the abstract base class is not a separate Dafny type. `RoundRobinRouter` is its only implementation. Its `Route` takes the endpoint and payload of the base class's `route`, and also the transport's `post` as a function. It returns a `Result` instead of raising.
- `run` (src/health/health_checker.py:22-30): the unending cycle and the concurrent fan-out with `asyncio.gather` are not modelled. Only one instance check (`CheckInstanceHealth`) and the sleep rule (`SleepDuration`, `CycleSpacing`) are. Each check touches only its own instance.
- Concurrency: `asyncio.Lock` is modelled by treating each selection call as one atomic method call. Interleavings of the health checker and the router between calls are not modelled.
- `asyncio.timeout`: the cancelled probe is folded into the `TimedOut` outcome. The probe, its URL formatting and the JSON body are reduced to a function from URL to outcome.
- `HttpClient` (src/utils/http/http_client.py), logging (src/utils/logger_config.py), the FastAPI endpoint (src/api/router_api.py), bootstrap and config reading (main.py, src/main.py) and the router factory (src/router/router_factory.py) are not part of this model. They are I/O or wiring.
- Clock readings are parameters, and the Python floats are Dafny reals, so rounding is not modelled.
- Payloads and responses are type parameters of `Route`; their JSON structure is not modelled.
