/**
 * Limit extraction at the start of drawLinear: of the left axis' limit lines, the
 * largest value is the top limit and the smallest the bottom limit; with no limit
 * line there is neither, and the limits are enabled exactly when both exist.
 */
module Limits {
  import opened Options

  /** The renderer uses the limits only when both are present. */
  predicate LimitsEnabled(top: Option<real>, bottom: Option<real>)
  {
    top.Some? && bottom.Some?
  }

  /** One pass over the limit values, keeping the largest and the smallest seen so far. */
  method ExtractLimits(limits: seq<real>) returns (top: Option<real>, bottom: Option<real>)
    ensures top.Some? <==> |limits| > 0
    ensures bottom.Some? <==> |limits| > 0
    ensures top.Some? ==> top.value in limits && forall k :: 0 <= k < |limits| ==> limits[k] <= top.value
    ensures bottom.Some? ==> bottom.value in limits && forall k :: 0 <= k < |limits| ==> bottom.value <= limits[k]
    ensures LimitsEnabled(top, bottom) <==> |limits| > 0
    ensures LimitsEnabled(top, bottom) ==> bottom.value <= top.value
  {
    top, bottom := None, None;
    for i := 0 to |limits|
      invariant top.Some? <==> i > 0
      invariant bottom.Some? <==> i > 0
      invariant top.Some? ==> top.value in limits[..i] && forall k :: 0 <= k < i ==> limits[k] <= top.value
      invariant bottom.Some? ==> bottom.value in limits[..i] && forall k :: 0 <= k < i ==> bottom.value <= limits[k]
    {
      var limit := limits[i];
      if top.None? || limit > top.value {
        top := Some(limit);
      }
      if bottom.None? || limit < bottom.value {
        bottom := Some(limit);
      }
    }
    assert limits[..|limits|] == limits;
  }
}
