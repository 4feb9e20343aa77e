/** Option and Result, the two failure-carrying wrappers the model uses for
    "this librosa call raised" and for the errors the analyzer reports. */
module Wrappers {

  datatype Option<+T> = None | Some(value: T)

  datatype Result<+R, +E> = Success(value: R) | Failure(error: E)
}
