/** Optional values and the settled state of a JavaScript promise. */
module Results {

  datatype Option<+T> = None | Some(value: T)

  /** How an awaited call settles: resolved with a value, or rejected with an
      error whose `message` a `catch` block can read. */
  datatype Outcome<+T> = Done(value: T) | Threw(message: string)
}
