/**
 * The event emitter of src/Externals/EventEmitter/EventEmitter.js: a map from
 * event name to that event's listener set, created on first registration.
 */
module Emitter {
  import opened Listeners
  import opened ListenerSet

  /** The listener states of the emitter, per event name. */
  type Events = map<string, ListenerState>

  /** The state an event's operations start from: its set, or a new empty one. */
  function Lookup(m: Events, event: string): ListenerState {
    if event in m then m[event] else EMPTY
  }

  /** `on(event, l)`: the event's set, created if missing, registers `l`; no other event changes. */
  function OnEvent(m: Events, event: string, l: Listener): (r: Events)
    ensures r.Keys == m.Keys + {event}
    ensures r[event] == OnSpec(Lookup(m, event), l)
    ensures forall e :: e in m && e != event ==> r[e] == m[e]
  {
    m[event := OnSpec(Lookup(m, event), l)]
  }

  /** `once(event, l)`, likewise. */
  function OnceEvent(m: Events, event: string, l: Listener): (r: Events)
    ensures r.Keys == m.Keys + {event}
    ensures r[event] == OnceSpec(Lookup(m, event), l)
    ensures forall e :: e in m && e != event ==> r[e] == m[e]
  {
    m[event := OnceSpec(Lookup(m, event), l)]
  }

  /** `off(event, l)`: nothing for an unknown event; no set is created. */
  function OffEvent(m: Events, event: string, l: Listener): (r: Events)
    ensures r.Keys == m.Keys
    ensures event !in m ==> r == m
    ensures event in m ==> r[event] == OffSpec(m[event], l)
    ensures forall e :: e in m && e != event ==> r[e] == m[e]
  {
    if event in m then m[event := OffSpec(m[event], l)] else m
  }

  /** `emit(event)`: false for an unknown event, otherwise what that set's `emit` returns. */
  function EmitEvent(m: Events, event: string): (r: (Events, Trace, bool))
    ensures r.0.Keys == m.Keys
    ensures event !in m ==> r == (m, [], false)
    ensures event in m ==> (r.0[event], r.1, r.2) == EmitSpec(m[event])
    ensures forall e :: e in m && e != event ==> r.0[e] == m[e]
  {
    if event !in m then (m, [], false)
    else
      var (s, trace, fired) := EmitSpec(m[event]);
      (m[event := s], trace, fired)
  }

  /** Every listener set the emitter holds is well formed, and stays so. */
  predicate AllWellformed(m: Events) {
    forall e :: e in m ==> Wellformed(m[e])
  }

  lemma EventsPreserved(m: Events, event: string, l: Listener)
    requires AllWellformed(m)
    ensures AllWellformed(OnEvent(m, event, l)) && AllWellformed(OnceEvent(m, event, l))
    ensures AllWellformed(OffEvent(m, event, l)) && AllWellformed(EmitEvent(m, event).0)
  {
    Preserved(Lookup(m, event), l);
  }

  /** Once every listener of an event is off, its `emit` returns false and calls nobody. */
  lemma EmitAfterOff(m: Events, event: string, l: Listener)
    requires AllWellformed(m) && event in m && m[event].all == [l]
    ensures var r := EmitEvent(OffEvent(m, event, l), event); !r.2 && r.1 == []
  {
    OffRemoves(m[event], l);
  }

  /** A listener registered with `on` is called by the next `emit` and stays for the one after. */
  lemma OnThenEmit(m: Events, event: string, l: Listener)
    requires event !in m
    ensures var r := EmitEvent(OnEvent(m, event, l), event);
      r.2 && r.1 == [l] && r.0[event] == ListenerState([l], {})
  {
  }

  /** A `once` listener is called by the next `emit` only: the one after returns false. */
  lemma OnceThenEmitTwice(m: Events, event: string, l: Listener)
    requires event !in m
    ensures var r := EmitEvent(OnceEvent(m, event, l), event);
      r.2 && r.1 == [l] && !EmitEvent(r.0, event).2
  {
    var s := OnceSpec(EMPTY, l);
    assert s.all == [l];
    assert Kept(s.all, s.once) == [];
  }

  /** The emitter object; its `on`, `once` and `off` return it. */
  class EventEmitter {
    var listeners: map<string, EventListenerSet>

    /** Each event has its own set object (filed under its name), and every set is well formed. */
    ghost predicate Valid()
      reads this, listeners.Values
    {
      forall e :: e in listeners ==> listeners[e].Valid() && listeners[e].event == e
    }

    /** The state of every set, by event name. */
    function States(): Events
      reads this, listeners.Values
    {
      map e | e in listeners :: listeners[e].State()
    }

    constructor()
      ensures Valid() && States() == map[]
    {
      listeners := map[];
    }

    method On(event: string, l: Listener) returns (self: EventEmitter)
      requires Valid()
      modifies this, listeners.Values
      ensures Valid() && States() == OnEvent(old(States()), event, l) && self == this
    {
      if event in listeners {
        assert listeners[event].State() == Lookup(States(), event);
        Delegate(listeners[event], event, l, false);
      } else {
        ghost var m0 := States();
        var s := new EventListenerSet(event);
        var _ := s.On(l);
        assert forall e :: e in listeners ==> listeners[e].State() == m0[e];
        listeners := listeners[event := s];
        assert States() == m0[event := OnSpec(EMPTY, l)];
      }
      self := this;
    }

    method Once(event: string, l: Listener) returns (self: EventEmitter)
      requires Valid()
      modifies this, listeners.Values
      ensures Valid() && States() == OnceEvent(old(States()), event, l) && self == this
    {
      if event in listeners {
        assert listeners[event].State() == Lookup(States(), event);
        Delegate(listeners[event], event, l, true);
      } else {
        ghost var m0 := States();
        var s := new EventListenerSet(event);
        var _ := s.Once(l);
        assert forall e :: e in listeners ==> listeners[e].State() == m0[e];
        listeners := listeners[event := s];
        assert States() == m0[event := OnceSpec(EMPTY, l)];
      }
      self := this;
    }

    /** The delegation to the event's existing set: its `once` or its `on`. */
    method Delegate(s: EventListenerSet, event: string, l: Listener, once: bool)
      requires Valid() && event in listeners && s == listeners[event]
      modifies s
      ensures Valid()
      ensures States() == old(States())[event := if once then OnceSpec(old(s.State()), l) else OnSpec(old(s.State()), l)]
    {
      if once {
        var _ := s.Once(l);
      } else {
        var _ := s.On(l);
      }
      assert States() == old(States())[event := s.State()];
    }

    method Off(event: string, l: Listener) returns (self: EventEmitter)
      requires Valid()
      modifies listeners.Values
      ensures Valid() && States() == OffEvent(old(States()), event, l) && self == this
    {
      if event in listeners {
        var s := listeners[event];
        var _ := s.Off(l);
        assert States() == old(States())[event := s.State()];
      }
      self := this;
    }

    method Emit(event: string) returns (trace: Trace, fired: bool)
      requires Valid()
      modifies listeners.Values
      ensures Valid() && (States(), trace, fired) == EmitEvent(old(States()), event)
    {
      if event !in listeners {
        return [], false;
      }
      var s := listeners[event];
      trace, fired := s.Emit();
      assert States() == old(States())[event := s.State()];
    }
  }
}
