/** Absent results and the failures that end the analysis of one region of interest.

    The analysis script has two kinds of "no result": values it returns on purpose
    (`None` from the nearest-landmark search, `-1` from the threshold search) and Python
    exceptions raised on inputs it does not guard against, which the batch driver catches
    per image. The first kind is an `Option`; the second is a `Result` whose `Fault`
    names the exception's cause. */
module Wrappers {

  datatype Option<+T> = None | Some(value: T)

  /** Why an operation stopped without a value. */
  datatype Fault =
    | NoShortestPath    // the skeletonizer produced no shortest path (returned as None, not raised)
    | EmptyCenterline   // the longest path has no points, so `points[0]` raises IndexError
    | NoLandmarks       // the nucleus list is empty, so unpacking `None` raises TypeError
    | EmptyColumn       // a strip of height 0: the median indexes an empty list, the mean divides by 0
    | ZeroWindow        // a rolling window of 0 averages the empty tuple, dividing by 0

  datatype Result<+T> = Ok(value: T) | Err(fault: Fault)
}
