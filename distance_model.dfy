/**
 * The distance estimator (log-distance path loss) is floating-point numerics
 * and is not modelled as a formula. The scanner receives it as a function
 * from smoothed RSSI (hundredths of a dBm) to distance (centimetres, i.e. the
 * estimator's two-decimal metres) of which only two facts are known: a
 * non-negative RSSI is an invalid reading mapped to 0.1 m, and no estimate is
 * below 0.1 m.
 */
module DistanceModel {

  /** 0.1 m, in centimetres. */
  const MinDistanceCm := 10

  ghost predicate IsDistanceModel(estimate: int -> int)
  {
    forall smoothed :: estimate(smoothed) >= MinDistanceCm && (smoothed >= 0 ==> estimate(smoothed) == MinDistanceCm)
  }
}
