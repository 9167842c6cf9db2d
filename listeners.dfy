/**
 * Listeners as the event code sees them: opaque callbacks compared by identity.
 * Calling one is recorded in a trace, so an operation that calls listeners
 * returns the listeners it called, in order.
 */
module Listeners {
  /** A listener, by identity. */
  type Listener = nat

  /** The listeners called, in call order. */
  type Trace = seq<Listener>
}
