/** The ways the inference routines can fail.  The routines never catch
    anything, so every failure ends the run; the model returns them as values. */
module Results {

  datatype Error =
    | ZeroDivision      // a two-component normalisation met a vector whose sum is 0
    | IndexOutOfRange   // a list was indexed outside its bounds

  datatype Result<+T> = Ok(value: T) | Err(error: Error)
}
