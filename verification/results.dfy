/** A success-or-error wrapper. The container reports its misuses at compile
    time; the model turns the compile failures listed in `Error` and
    `LabelError` into a `Failure` carrying the reason, so that those error
    paths can be stated and proved. */
module Results {

  datatype Result<+R, +E> = Success(value: R) | Failure(error: E)
}
