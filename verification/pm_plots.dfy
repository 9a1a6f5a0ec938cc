/**
 Axis-limit widening used by the plotting layer (PMPlots.findMinMax): each
 bound of an interval is moved outward by the factor `SCALE_FACTOR`, in the
 direction its sign calls for. The animation and chart set-up around it are
 not modelled.
 */
module PMPlots {

  /** PMPlots.SCALE_FACTOR = 1.05, exactly. */
  const SCALE_FACTOR: real := 1.05

  /**
   The four-way case split of findMinMax. An inverted interval (lower bound
   non-negative, upper bound negative) falls through every branch and is
   returned unchanged.
   */
  function FindMinMax(minVal: real, maxVal: real): (r: (real, real))
    // never shrinks
    ensures r.0 <= minVal && r.1 >= maxVal
    // signs are kept
    ensures r.0 < 0.0 <==> minVal < 0.0
    ensures r.1 < 0.0 <==> maxVal < 0.0
    // a bound moves exactly when it is non-zero and the interval is not inverted
    ensures r.0 == minVal <==> minVal == 0.0 || (minVal >= 0.0 && maxVal < 0.0)
    ensures r.1 == maxVal <==> maxVal == 0.0 || (minVal >= 0.0 && maxVal < 0.0)
  {
    if minVal < 0.0 && maxVal < 0.0 then
      (minVal * SCALE_FACTOR, maxVal / SCALE_FACTOR)
    else if minVal < 0.0 && maxVal >= 0.0 then
      (minVal * SCALE_FACTOR, maxVal * SCALE_FACTOR)
    else if minVal >= 0.0 && maxVal >= 0.0 then
      (minVal / SCALE_FACTOR, maxVal * SCALE_FACTOR)
    else
      (minVal, maxVal)
  }

  /** Reference definition: the outward image of a lower bound, on its own. */
  function WidenLower(v: real): real
  {
    if v < 0.0 then v * SCALE_FACTOR else v / SCALE_FACTOR
  }

  /** Reference definition: the outward image of an upper bound, on its own. */
  function WidenUpper(v: real): real
  {
    if v < 0.0 then v / SCALE_FACTOR else v * SCALE_FACTOR
  }

  /**
   Apart from the inverted case, findMinMax treats the two bounds
   independently: each is widened by its own sign alone.
   */
  lemma FindMinMaxIsPerBound(minVal: real, maxVal: real)
    ensures !(minVal >= 0.0 && maxVal < 0.0) ==>
              FindMinMax(minVal, maxVal) == (WidenLower(minVal), WidenUpper(maxVal))
    ensures minVal >= 0.0 && maxVal < 0.0 ==> FindMinMax(minVal, maxVal) == (minVal, maxVal)
  {
  }

  /** A well-formed interval stays well-formed and gets no narrower. */
  lemma FindMinMaxWidensInterval(minVal: real, maxVal: real)
    requires minVal <= maxVal
    ensures FindMinMax(minVal, maxVal).0 <= FindMinMax(minVal, maxVal).1
    ensures FindMinMax(minVal, maxVal).1 - FindMinMax(minVal, maxVal).0 >= maxVal - minVal
  {
  }

  /** The degenerate interval at zero is a fixed point. */
  lemma FindMinMaxZero()
    ensures FindMinMax(0.0, 0.0) == (0.0, 0.0)
  {
  }
}
