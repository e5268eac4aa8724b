/** Success and failure values shared by the models. */
module Results {

  datatype Option<+T> = None | Some(value: T)

  /**
   * The errors the operations engine tells apart: a policy refusal, an execution context that was
   * cancelled or ran out of time, and anything else.
   */
  datatype Error = Denied(reason: string) | ContextDone(text: string) | Failure(text: string)

  datatype Result<+T> = Ok(value: T) | Err(error: Error)
}
