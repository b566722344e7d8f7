/** Runs of a transition system. */
module Traces {
  /** The states a run passes through and the events between them. */
  datatype Trace<+S, +E> = Trace(states: seq<S>, events: seq<E>)

  function Last<S, E>(tr: Trace<S, E>): S
    requires tr.states != []
  {
    tr.states[|tr.states| - 1]
  }
}
