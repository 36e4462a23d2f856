/** The three health classifications an instance can carry. */
module HealthStatuses {

  datatype HealthStatus = Healthy | Unhealthy | Degraded
}
