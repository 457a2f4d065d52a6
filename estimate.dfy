/** The bandwidth estimator both loops run after their loop ends: from the bytes
    received and the first-to-last data interval, the throughput in Mbit/s. The
    source computes in double precision; the model computes the exact real value. */
module Estimate {
  import opened Basics

  /** What the summary line reports: the byte total and the interval in seconds. */
  datatype Report = Report(bytes: nat, seconds: real)

  /** Estimated bandwidth in Mbit/s: bytes / 10^6 * 8 / seconds. A zero interval
      (a single data unit, or equal timestamps) has no real quotient; the source then
      divides by 0.0, which is not modelled. */
  function EstimatedMbps(r: Report): (mbps: Option<real>)
    ensures mbps.Some? <==> r.seconds != 0.0
    ensures mbps.Some? ==> mbps.value * r.seconds == r.bytes as real / 1_000_000.0 * 8.0
  {
    if r.seconds == 0.0 then None
    else Some((r.bytes as real / 1_000_000.0 * 8.0) / r.seconds)
  }

  /** One megabyte in one second is eight megabits per second. */
  lemma OneMegabyteInOneSecond()
    ensures EstimatedMbps(Report(1_000_000, 1.0)) == Some(8.0)
  {
  }
}
