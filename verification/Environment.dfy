/** How the calls into a system library turn out, decided beforehand and independently of the program. */
module Environment {

  /** A call fails, or works and has a result. */
  datatype Outcome<+T> = Fails | Works(value: T)

  /** The outcome of call number `n`; what the plan does not say fails. */
  function At<T>(plan: seq<Outcome<T>>, n: nat): Outcome<T> {
    if n < |plan| then plan[n] else Fails
  }
}
