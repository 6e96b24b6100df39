/**
 * The pre-parsed form of one entry of the `dynks.regions` configuration list, standing in for
 * the typesafe Config object the builder and the diagnostics bean read.
 */
module RegionConfigs {
  import opened Wrappers
  import opened JavaNumbers

  /** A configured duration, held in nanoseconds as the configuration library does. */
  datatype Duration = Duration(nanos: int)

  /** getDuration(path, MILLISECONDS): the nanoseconds converted to milliseconds, truncating. */
  function ToMillis(d: Duration): int {
    JavaDiv(d.nanos, 1_000_000)
  }

  /** One configured region; each field is None when its path is absent. */
  datatype RegionConfig = RegionConfig(id: Option<string>, ttl: Option<Duration>, pattern: Option<string>)
}
