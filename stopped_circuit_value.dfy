/** The result handle the solver hands out once it has been stopped. It holds
    no state and its read fails at once, without waiting on anything. */
module StoppedCircuitValue {
  import opened Circuits

  /** Reading a stopped handle: never a boolean, always the interruption
      failure, the same on every call since there is nothing it depends on. */
  function GetValue(): (r: Outcome)
    ensures !r.Value?
    ensures r == Interrupted
  {
    Interrupted
  }
}
