/** Option and Result values shared by every module of the model. A thrown
    JavaScript `Error` is modelled as `Err` carrying the error's message. */
module Results {

  datatype Option<+T> = None | Some(value: T)

  datatype Result<+T> = Ok(value: T) | Err(message: string)
}
