/**
 * The safezone status of a reported distance: the if-chain of
 * `src/pages/api/sentlocation.ts` that turns a distance and the two radii of
 * the safezone into the status code stored in `locat_status`.
 *
 * The codes are identifiers, not a severity order: Breach is 2 and Alert is 3.
 */
module ZoneStatus {
  import opened Js

  const Inside := 0
  const Caution := 1
  const Breach := 2
  const Alert := 3

  predicate IsStatusCode(s: int) {
    s == Inside || s == Caution || s == Breach || s == Alert
  }

  /** The alert threshold, 80% of the outer radius. */
  function Threshold(r2: real): real {
    r2 * 0.8
  }

  /**
   * The priority chain over `let calculatedStatus = 0`. Every comparison with
   * NaN is false, so a NaN distance matches no band and keeps the initial 0.
   */
  function Classify(d: Num, r1: real, r2: real): (status: int)
    ensures IsStatusCode(status)
    ensures d.NaN? ==> status == Inside
    ensures d.Real? ==> (status == Inside <==> d.x <= r1)
    ensures d.Real? ==> (status == Breach <==> d.x > r1 && d.x >= Threshold(r2) && d.x > r2)
  {
    match d
    case NaN => Inside
    case Real(x) =>
      if x <= r1 then Inside
      else if x > r1 && x < Threshold(r2) then Caution
      else if x >= Threshold(r2) && x <= r2 then Alert
      else if x > r2 then Breach
      else Inside
  }

  /** Position of a status on the Inside < Caution < Alert < Breach severity scale. */
  function Severity(status: int): (rank: nat)
    ensures IsStatusCode(status) ==> rank <= 3
  {
    if status == Caution then 1
    else if status == Alert then 2
    else if status == Breach then 3
    else 0
  }

  /** The band of the status table a distance falls in, read band by band. */
  predicate InBand(status: int, x: real, r1: real, r2: real) {
    if status == Inside then x <= r1
    else if status == Caution then r1 < x < Threshold(r2)
    else if status == Alert then Threshold(r2) <= x <= r2
    else if status == Breach then x > r2
    else false
  }

  /**
   * When the outer radius is not negative and the inner radius lies below 80%
   * of it, the four bands of the table partition the reals, and the chain
   * returns exactly the band the distance lies in: no gap, no overlap.
   */
  lemma ClassifyMatchesBands(x: real, r1: real, r2: real, status: int)
    requires 0.0 <= r2 && r1 < Threshold(r2)
    ensures Classify(Real(x), r1, r2) == status <==> InBand(status, x, r1, r2)
  {
  }

  /**
   * Whatever the radii, a real distance lies in the band of the status it is
   * given: the chain's trailing default is reached only by NaN.
   */
  lemma ClassifySound(x: real, r1: real, r2: real)
    ensures InBand(Classify(Real(x), r1, r2), x, r1, r2)
  {
  }

  /**
   * A larger distance never yields a less severe status, whatever the radii
   * (even when the inner radius exceeds the threshold or the outer radius).
   */
  lemma ClassifyMonotone(x: real, y: real, r1: real, r2: real)
    requires x <= y
    ensures Severity(Classify(Real(x), r1, r2)) <= Severity(Classify(Real(y), r1, r2))
  {
  }

  /** The band edges: each boundary belongs to the band below it except the inner radius, which is Inside. */
  lemma ClassifyBoundaries(r1: real, r2: real, e: real)
    requires 0.0 <= r1 < Threshold(r2) && e > 0.0
    ensures Classify(Real(r1), r1, r2) == Inside
    ensures r1 + e < Threshold(r2) ==> Classify(Real(r1 + e), r1, r2) == Caution
    ensures Classify(Real(Threshold(r2)), r1, r2) == Alert
    ensures Classify(Real(r2), r1, r2) == Alert
    ensures Classify(Real(r2 + e), r1, r2) == Breach
  {
  }
}
