/** The settings the daemon runs with (src/configuration.rs). */
module Configuration {
  import opened Wrappers

  /** A length of time in whole nanoseconds, as std::time::Duration counts it. */
  type Duration = nat

  /**
   * The loaded configuration. `apiToken` already carries its "Bearer " prefix;
   * `records` are the names of the "A" records to keep pointed at this host.
   */
  datatype Configuration = Configuration(
    interval: Option<Duration>,
    apiToken: string,
    zoneId: string,
    records: seq<string>,
    groupErrors: Option<bool>)
}
