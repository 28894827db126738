/** Option and Result values used for the error paths of the modelled operations. */
module Results {

  datatype Option<+T> = None | Some(value: T)

  datatype Result<+T, +E> = Ok(value: T) | Err(error: E)

  /** An HTTP error as raised through FastAPI's HTTPException: a status code and a detail text. */
  datatype HttpError = HttpError(status: int, detail: string)
}
