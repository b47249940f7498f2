// The outcome of a step that may raise: Python exceptions become `Err`, carrying
// what the pipeline records of them (for most steps, `str(exc)`).
module Results {

  datatype Result<+T, +E> = Ok(value: T) | Err(error: E)

  datatype Option<+T> = None | Some(value: T)

  /** What a language-model backend call produced: its reply text, or the message
      of whatever it raised (network, authentication, unknown provider, ...). */
  type Reply = Result<string, string>

  /** `llm.complete(prompt)` seen from the pipeline: one reply per prompt. */
  type Backend = string -> Reply
}
