/** Option and Result, the two wrappers the model uses for absent values and
    for the error returns of the chaincode. */
module Results {

  datatype Option<+T> = None | Some(value: T)

  datatype Result<+R, +E> = Ok(value: R) | Err(error: E)
}
