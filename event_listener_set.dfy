/**
 * The listener set of one event (src/Externals/EventEmitter/EventListenerSet.js):
 * `#all`, the listeners in insertion order (a JavaScript `Set` keeps its
 * insertion order and each member once), and `#once`, those to drop after
 * their next call.
 */
module ListenerSet {
  import opened Listeners

  /** The two sets, `#all` as a sequence in insertion order. */
  datatype ListenerState = ListenerState(all: seq<Listener>, once: set<Listener>)

  /** No listener listed twice. */
  predicate NoDuplicates(s: seq<Listener>) {
    forall i, j :: 0 <= i < j < |s| ==> s[i] != s[j]
  }

  /** What every operation keeps: each member once, and `#once` within `#all`. */
  predicate Wellformed(s: ListenerState) {
    NoDuplicates(s.all) && forall l :: l in s.once ==> l in s.all
  }

  /** The empty state of a new set. */
  const EMPTY := ListenerState([], {})

  /** `Set.add`: a member stays where it is, a new one goes at the end. */
  function Added(all: seq<Listener>, l: Listener): (r: seq<Listener>)
    ensures l in all ==> r == all
    ensures l !in all ==> r == all + [l]
    ensures forall x :: x in r <==> x in all || x == l
    ensures NoDuplicates(all) ==> NoDuplicates(r)
  {
    if l in all then all else all + [l]
  }

  /** The members of `all` outside `drop`, in their order (`Set.delete` of each of `drop`). */
  function Kept(all: seq<Listener>, drop: set<Listener>): (r: seq<Listener>)
    ensures |r| <= |all|
    decreases |all|
  {
    if |all| == 0 then []
    else if all[0] in drop then Kept(all[1..], drop)
    else [all[0]] + Kept(all[1..], drop)
  }

  /** What stays is exactly what was there and not dropped. */
  lemma {:induction false} KeptMembers(all: seq<Listener>, drop: set<Listener>)
    ensures forall x :: x in Kept(all, drop) <==> x in all && x !in drop
    decreases |all|
  {
    if |all| > 0 {
      KeptMembers(all[1..], drop);
    }
  }

  /** Dropping members never introduces a duplicate. */
  lemma {:induction false} KeptNoDuplicates(all: seq<Listener>, drop: set<Listener>)
    requires NoDuplicates(all)
    ensures NoDuplicates(Kept(all, drop))
    decreases |all|
  {
    if |all| > 0 {
      assert NoDuplicates(all[1..]) by {
        forall i, j | 0 <= i < j < |all| - 1 ensures all[1..][i] != all[1..][j] {
          assert all[1..][i] == all[i + 1] && all[1..][j] == all[j + 1];
        }
      }
      KeptNoDuplicates(all[1..], drop);
      assert all[0] !in all[1..] by {
        forall j | 0 <= j < |all| - 1 ensures all[1..][j] != all[0] { assert all[1..][j] == all[j + 1]; }
      }
      KeptMembers(all[1..], drop);
      var rest := Kept(all[1..], drop);
      if all[0] !in drop {
        forall i, j | 0 <= i < j < |[all[0]] + rest| ensures ([all[0]] + rest)[i] != ([all[0]] + rest)[j] {
          if i == 0 {
            assert ([all[0]] + rest)[j] == rest[j - 1];
          } else {
            assert ([all[0]] + rest)[i] == rest[i - 1] && ([all[0]] + rest)[j] == rest[j - 1];
          }
        }
      }
    }
  }

  /** Dropping works piece by piece. */
  lemma {:induction false} KeptAppend(a: seq<Listener>, b: seq<Listener>, drop: set<Listener>)
    ensures Kept(a + b, drop) == Kept(a, drop) + Kept(b, drop)
    decreases |a|
  {
    if |a| == 0 {
      assert a + b == b;
    } else {
      assert (a + b)[1..] == a[1..] + b;
      KeptAppend(a[1..], b, drop);
    }
  }

  /** Dropping a listener that is not there changes nothing. */
  lemma {:induction false} KeptAbsent(all: seq<Listener>, l: Listener)
    requires l !in all
    ensures Kept(all, {l}) == all
    decreases |all|
  {
    if |all| > 0 {
      KeptAbsent(all[1..], l);
    }
  }

  /** Dropping never adds a member. */
  lemma {:induction false} KeptLacks(all: seq<Listener>, drop: set<Listener>, x: Listener)
    requires x !in all
    ensures x !in Kept(all, drop)
    decreases |all|
  {
    if |all| > 0 {
      KeptLacks(all[1..], drop, x);
    }
  }

  /** The members of a sequence, as a set. */
  function Elements(s: seq<Listener>): (r: set<Listener>)
    ensures forall x :: x in r <==> x in s
  {
    set x | x in s
  }

  /** `on(l)`. */
  function OnSpec(s: ListenerState, l: Listener): (r: ListenerState)
    ensures forall x :: x in r.all <==> x in s.all || x == l
    ensures l in s.all ==> r.all == s.all
    ensures r.once == s.once
  {
    ListenerState(Added(s.all, l), s.once)
  }

  /** `once(l)`. */
  function OnceSpec(s: ListenerState, l: Listener): (r: ListenerState)
    ensures forall x :: x in r.all <==> x in s.all || x == l
    ensures l in s.all ==> r.all == s.all
    ensures l in r.once && forall x :: x != l ==> (x in r.once <==> x in s.once)
  {
    ListenerState(Added(s.all, l), s.once + {l})
  }

  /** `off(l)`. */
  function OffSpec(s: ListenerState, l: Listener): (r: ListenerState)
    ensures l !in r.all && l !in r.once
    ensures forall x :: x != l ==> (x in r.all <==> x in s.all) && (x in r.once <==> x in s.once)
  {
    KeptMembers(s.all, {l});
    ListenerState(Kept(s.all, {l}), s.once - {l})
  }

  /**
   * `emit()`: the state afterwards, the listeners called and the result. Every
   * member of `#all` is called in order; those in `#once` then leave both sets.
   */
  function EmitSpec(s: ListenerState): (r: (ListenerState, Trace, bool))
    ensures r.2 <==> |s.all| > 0
    ensures r.1 == s.all
    ensures forall x :: x in r.0.all <==> x in s.all && x !in s.once
    ensures Wellformed(s) ==> r.0.once == {}
  {
    KeptMembers(s.all, s.once);
    if |s.all| == 0 then (s, [], false)
    else (ListenerState(Kept(s.all, s.once), s.once - Elements(s.all)), s.all, true)
  }

  /** Every operation keeps the set well formed. */
  lemma Preserved(s: ListenerState, l: Listener)
    requires Wellformed(s)
    ensures Wellformed(OnSpec(s, l)) && Wellformed(OnceSpec(s, l)) && Wellformed(OffSpec(s, l)) && Wellformed(EmitSpec(s).0)
  {
    KeptMembers(s.all, {l});
    KeptNoDuplicates(s.all, {l});
    KeptMembers(s.all, s.once);
    KeptNoDuplicates(s.all, s.once);
  }

  /** With no listener, `emit` calls nothing, returns false and changes nothing. */
  lemma EmitNone(s: ListenerState)
    requires |s.all| == 0
    ensures EmitSpec(s).1 == [] && !EmitSpec(s).2 && EmitSpec(s).0 == s
  {
  }

  /**
   * Otherwise each listener is called once, in insertion order, and `emit` returns
   * true; the `once` listeners are gone, the others stay, and `#once` is empty.
   */
  lemma EmitCalls(s: ListenerState)
    requires Wellformed(s) && |s.all| > 0
    ensures EmitSpec(s).2 && EmitSpec(s).1 == s.all && NoDuplicates(EmitSpec(s).1)
    ensures forall x :: x in EmitSpec(s).0.all <==> x in s.all && x !in s.once
    ensures EmitSpec(s).0.once == {}
  {
    KeptMembers(s.all, s.once);
  }

  /** Adding a listener already there keeps one membership, at its original place. */
  lemma AddAgain(s: ListenerState, l: Listener)
    requires l in s.all
    ensures OnSpec(s, l).all == s.all && OnceSpec(s, l).all == s.all
  {
  }

  /** `once(l)` then `on(l)`: the next `emit` still calls `l` and removes it. */
  lemma OnceThenOn(s: ListenerState, l: Listener)
    requires Wellformed(s)
    ensures var t := OnSpec(OnceSpec(s, l), l); l in EmitSpec(t).1 && l !in EmitSpec(t).0.all
  {
    var t := OnSpec(OnceSpec(s, l), l);
    KeptMembers(t.all, t.once);
  }

  /** `off(l)` removes `l` from both sets and keeps the others, in order. */
  lemma OffRemoves(s: ListenerState, l: Listener)
    requires Wellformed(s)
    ensures l !in OffSpec(s, l).all && l !in OffSpec(s, l).once
    ensures forall x :: x != l ==> (x in OffSpec(s, l).all <==> x in s.all) && (x in OffSpec(s, l).once <==> x in s.once)
    ensures l !in s.all ==> OffSpec(s, l).all == s.all
  {
    KeptMembers(s.all, {l});
    if l !in s.all {
      KeptAbsent(s.all, l);
    }
  }

  /** Once every listener was registered with `once`, a second `emit` returns false. */
  lemma EmitAllOnce(s: ListenerState)
    requires Wellformed(s) && forall x :: x in s.all ==> x in s.once
    ensures !EmitSpec(EmitSpec(s).0).2
  {
    KeptMembers(s.all, s.once);
    if |s.all| > 0 && |Kept(s.all, s.once)| > 0 {
      assert Kept(s.all, s.once)[0] in Kept(s.all, s.once);
    }
  }

  /** `l` occurs in `s` only at position `i`. */
  lemma OnlyAt(s: seq<Listener>, i: nat)
    requires NoDuplicates(s) && i < |s|
    ensures s[i] !in s[..i] && s[i] !in s[i + 1..]
  {
    forall j | 0 <= j < i ensures s[..i][j] != s[i] { assert s[..i][j] == s[j]; }
    var rest := s[i + 1..];
    forall j | 0 <= j < |rest| ensures rest[j] != s[i] { assert rest[j] == s[i + 1 + j]; }
  }

  /**
   * One turn of the `emit` loop for a `once` listener `l`: before the call the
   * state is the kept part of what was visited followed by what is still to
   * visit; dropping `l` gives the same shape one turn later.
   */
  lemma EmitDrops(prefix: seq<Listener>, l: Listener, rest: seq<Listener>, once0: set<Listener>)
    requires l !in prefix && l !in rest && l in once0
    ensures Kept(Kept(prefix, once0) + ([l] + rest), {l}) == Kept(prefix + [l], once0) + rest
  {
    var visited := Kept(prefix, once0);
    KeptLacks(prefix, once0, l);
    calc {
      Kept(visited + ([l] + rest), {l});
      { KeptAppend(visited, [l] + rest, {l}); }
      Kept(visited, {l}) + Kept([l] + rest, {l});
      { KeptAbsent(visited, l); KeptSkip(l, rest); }
      visited + rest;
      { KeptOnce(prefix, l, once0); }
      Kept(prefix + [l], once0) + rest;
    }
  }

  /** Visiting a `once` listener adds nothing to what stays. */
  lemma KeptOnce(prefix: seq<Listener>, l: Listener, once0: set<Listener>)
    requires l in once0
    ensures Kept(prefix + [l], once0) == Kept(prefix, once0)
  {
    KeptAppend(prefix, [l], once0);
    assert Kept([l], once0) == [];
    assert Kept(prefix, once0) + [] == Kept(prefix, once0);
  }

  /** Dropping `l` from `[l] + rest` where `rest` lacks it leaves `rest`. */
  lemma KeptSkip(l: Listener, rest: seq<Listener>)
    requires l !in rest
    ensures Kept([l] + rest, {l}) == rest
  {
    assert ([l] + rest)[1..] == rest;
    KeptAbsent(rest, l);
  }

  /** One turn of the `emit` loop for a listener that stays. */
  lemma EmitKeeps(prefix: seq<Listener>, l: Listener, rest: seq<Listener>, once0: set<Listener>)
    requires l !in once0
    ensures Kept(prefix, once0) + ([l] + rest) == Kept(prefix + [l], once0) + rest
  {
    KeptAppend(prefix, [l], once0);
    assert Kept([l], once0) == [l];
  }

  /** The `emit` loop's state after its first `i` turns over `listeners`. */
  function Visited(listeners: seq<Listener>, i: nat, once0: set<Listener>): ListenerState
    requires i <= |listeners|
  {
    ListenerState(Kept(listeners[..i], once0) + listeners[i..], once0 - Elements(listeners[..i]))
  }

  /** After the last turn the loop has reached the state `emit` specifies. */
  lemma VisitedAll(listeners: seq<Listener>, once0: set<Listener>)
    requires |listeners| > 0
    ensures Visited(listeners, |listeners|, once0) == EmitSpec(ListenerState(listeners, once0)).0
  {
    assert listeners[..|listeners|] == listeners && listeners[|listeners|..] == [];
  }

  /** One turn of the `emit` loop: the call of `listeners[i]`, then its removal if it is a `once` listener. */
  lemma EmitTurn(listeners: seq<Listener>, i: nat, once0: set<Listener>)
    requires NoDuplicates(listeners) && i < |listeners|
    ensures var l := listeners[i]; var s := Visited(listeners, i, once0);
      && (l in s.once <==> l in once0)
      && Visited(listeners, i + 1, once0) ==
           if l in once0 then ListenerState(Kept(s.all, {l}), s.once - {l}) else s
  {
    var l := listeners[i];
    assert listeners[..i + 1] == listeners[..i] + [l];
    assert listeners[i..] == [l] + listeners[i + 1..];
    OnlyAt(listeners, i);
    if l in once0 {
      EmitDrops(listeners[..i], l, listeners[i + 1..], once0);
    } else {
      EmitKeeps(listeners[..i], l, listeners[i + 1..], once0);
    }
    assert Elements(listeners[..i + 1]) == Elements(listeners[..i]) + {l};
  }

  /** The listener set object; its methods return it, as the source's do. */
  class EventListenerSet {
    var all: seq<Listener>
    var once: set<Listener>
    /** The event name an emitter files the set under (proof bookkeeping only). */
    ghost const event: string

    function State(): ListenerState
      reads this
    {
      ListenerState(all, once)
    }

    ghost predicate Valid()
      reads this
    {
      Wellformed(State())
    }

    constructor(ghost event: string)
      ensures State() == EMPTY && Valid() && this.event == event
    {
      all := [];
      once := {};
      this.event := event;
    }

    /** The loop over `#all`, deleting each `once` listener after its call. */
    method Emit() returns (trace: Trace, fired: bool)
      requires Valid()
      modifies this
      ensures Valid()
      ensures (State(), trace, fired) == EmitSpec(old(State()))
    {
      if |all| == 0 {
        return [], false;
      }
      var listeners := all;
      ghost var once0 := once;
      trace := [];
      for i := 0 to |listeners|
        invariant trace == listeners[..i]
        invariant State() == Visited(listeners, i, once0)
      {
        trace := trace + [listeners[i]];
        Visit(listeners, i, once0);
      }
      VisitedAll(listeners, once0);
      assert listeners[..|listeners|] == listeners;
      fired := true;
      Preserved(ListenerState(listeners, once0), 0);
    }

    /** One turn of the loop: the `i`-th listener is called, and dropped if it was added with `once`. */
    method Visit(listeners: seq<Listener>, i: nat, ghost once0: set<Listener>)
      requires NoDuplicates(listeners) && i < |listeners|
      requires State() == Visited(listeners, i, once0)
      modifies this
      ensures State() == Visited(listeners, i + 1, once0)
    {
      var listener := listeners[i];
      EmitTurn(listeners, i, once0);
      if listener in once {
        all := Kept(all, {listener});
        once := once - {listener};
      }
    }

    method On(l: Listener) returns (self: EventListenerSet)
      requires Valid()
      modifies this
      ensures Valid() && State() == OnSpec(old(State()), l) && self == this
    {
      all := Added(all, l);
      self := this;
    }

    method Once(l: Listener) returns (self: EventListenerSet)
      requires Valid()
      modifies this
      ensures Valid() && State() == OnceSpec(old(State()), l) && self == this
    {
      Preserved(State(), l);
      all := Added(all, l);
      once := once + {l};
      self := this;
    }

    method Off(l: Listener) returns (self: EventListenerSet)
      requires Valid()
      modifies this
      ensures Valid() && State() == OffSpec(old(State()), l) && self == this
    {
      Preserved(State(), l);
      all := Kept(all, {l});
      once := once - {l};
      self := this;
    }
  }
}
