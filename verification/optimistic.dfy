/** The optimistic-update discipline of the cart store: show the locally
    predicted state at once, then settle on the server's reply, or on the
    snapshot taken before the call when the call fails. */
module Optimistic {
  import opened Wrappers

  /** What the UI shows while the request is in flight, and after it settles. */
  datatype Transition<S> = Transition(shown: S, settled: S)

  /** One optimistic round trip starting from `snapshot`. */
  function Run<S>(snapshot: S, predicted: S, reply: Outcome<S>): (t: Transition<S>)
    ensures t.shown == predicted
    ensures reply.Err? ==> t.settled == snapshot
    ensures reply.Ok? ==> t.settled == reply.value
  {
    Transition(predicted, match reply case Ok(v) => v case Err(_) => snapshot)
  }

  /** A guard that stops the action before anything is shown: nothing changes. */
  function Idle<S>(s: S): Transition<S> {
    Transition(s, s)
  }
}
