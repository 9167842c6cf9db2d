/**
 * The watcher every store hands out (src/FileSystem/DummyFsWatcher.js): nothing is
 * watched, and a `'ready'` listener is called at once.
 */
module Watcher {
  import opened Listeners

  /** The watcher holds no state. */
  datatype DummyFsWatcher = DummyFsWatcher

  /** The event name the watcher answers. */
  const READY := "ready"

  /**
   * `on(event, listener)`: the listeners called (`listener` itself, once, for
   * `'ready'`; nobody otherwise) and the watcher returned, which is the same one.
   */
  function On(w: DummyFsWatcher, event: string, listener: Listener): (r: (Trace, DummyFsWatcher))
    ensures r.1 == w
    ensures event == READY ==> r.0 == [listener]
    ensures event != READY ==> r.0 == []
  {
    (if event == READY then [listener] else [], w)
  }

  /** `once(event, listener)`: the same calls and result as `on`. */
  function Once(w: DummyFsWatcher, event: string, listener: Listener): (r: (Trace, DummyFsWatcher))
    ensures r.1 == w
    ensures |r.0| <= 1 && (|r.0| == 1 ==> r.0[0] == listener)
  {
    if event == READY then ([listener], w) else ([], w)
  }

  /** `once` cannot be told apart from `on`. */
  lemma OnceIsOn(w: DummyFsWatcher, event: string, listener: Listener)
    ensures Once(w, event, listener) == On(w, event, listener)
  {
  }

  /** `close()`: nothing changes. */
  function Close(w: DummyFsWatcher): (r: DummyFsWatcher)
    ensures r == w
  {
    w
  }
}
