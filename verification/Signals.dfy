/** Typed validation signals shared by the serial repair controllers. */
module Signals {
  datatype TestDelta = Fixed | Regressed | UnchangedPass | ChangedFail | UnchangedFail | Invalid | Unavailable

  datatype ScopeSignal =
    | RegressionPass
    | RegressionFailure
    | TaskScopeImproved
    | TaskScopeStillFailing
    | StructuralPass
    | StructuralFailure
    | FeedbackFailure
    | ScopeUnavailable
  {
    predicate IsPassLike() {
      RegressionPass? || TaskScopeImproved? || StructuralPass?
    }
  }
}
