/** Result shapes shared by the models: an absent value, a computation that may fail, and one poll of a stream. */
module Wrappers {
  datatype Option<+T> = None | Some(value: T)

  datatype Outcome<+T> = Ok(value: T) | Err(message: string)

  /** What one call of a stream's `poll_next` returns. */
  datatype Poll<+T> = Pending | Ready(item: Option<T>)
}
