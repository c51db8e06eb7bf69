/** The publish/subscribe subject the dictionary service inherits: an
    ordered list of observers, in-order notification, and a loading flag. */
module Observer {
  import opened DictionaryTypes

  /** An observer. What an observer can learn from a subject is the
      sequence of `update` calls it receives, so the model records exactly
      that; the App's reaction to such a sequence is `App.Replay`. */
  class Observer {
    var received: seq<Event>

    constructor()
      ensures received == []
    {
      received := [];
    }

    method Update(e: Event)
      modifies this
      ensures received == old(received) + [e]
    {
      received := received + [e];
    }
  }

  /** `n` copies of `e`. */
  function Repeat(e: Event, n: nat): (r: seq<Event>)
    ensures |r| == n && forall i :: 0 <= i < n ==> r[i] == e
  {
    if n == 0 then [] else Repeat(e, n - 1) + [e]
  }

  /** What an observer registered `n` times receives when the events `t`
      are notified one after the other: each event `n` times in a row. */
  function Stutter(t: seq<Event>, n: nat): seq<Event> {
    if t == [] then [] else Stutter(t[..|t| - 1], n) + Repeat(t[|t| - 1], n)
  }

  lemma StutterSnoc(t: seq<Event>, e: Event, n: nat)
    ensures Stutter(t + [e], n) == Stutter(t, n) + Repeat(e, n)
  {
    assert (t + [e])[..|t|] == t;
  }

  /** An observer registered once receives exactly the notified events. */
  lemma {:induction false} StutterOnce(t: seq<Event>)
    ensures Stutter(t, 1) == t
  {
    if t != [] {
      StutterOnce(t[..|t| - 1]);
      assert Repeat(t[|t| - 1], 1) == [t[|t| - 1]];
      assert t[..|t| - 1] + [t[|t| - 1]] == t;
    }
  }

  /** An observer that is not registered receives nothing. */
  lemma {:induction false} StutterNone(t: seq<Event>)
    ensures Stutter(t, 0) == []
  {
    if t != [] {
      StutterNone(t[..|t| - 1]);
    }
  }

  /** `s.filter(x => x !== o)`: every occurrence of `o` is dropped. */
  function Without<T(==)>(s: seq<T>, o: T): (r: seq<T>)
    ensures o !in r
  {
    if s == [] then []
    else if s[0] == o then Without(s[1..], o)
    else [s[0]] + Without(s[1..], o)
  }

  /** Every other observer keeps as many registrations as it had. */
  lemma {:induction false} WithoutCounts<T>(s: seq<T>, o: T)
    ensures multiset(Without(s, o)) == multiset(s)[o := 0]
  {
    if s != [] {
      WithoutCounts(s[1..], o);
      assert s == [s[0]] + s[1..];
    }
  }

  /** Filtering works piece by piece, so the observers that are kept stay
      in their original relative order. */
  lemma {:induction false} WithoutAppend<T>(a: seq<T>, b: seq<T>, o: T)
    ensures Without(a + b, o) == Without(a, o) + Without(b, o)
  {
    if a == [] {
      assert a + b == b;
    } else {
      var ab := a + b;
      assert ab[0] == a[0] && ab[1..] == a[1..] + b;
      WithoutAppend(a[1..], b, o);
      if a[0] == o {
        assert Without(ab, o) == Without(ab[1..], o);
      } else {
        assert Without(ab, o) == [a[0]] + Without(ab[1..], o);
      }
    }
  }

  /** Removing an observer that is not registered changes nothing. */
  lemma {:induction false} WithoutAbsent<T>(s: seq<T>, o: T)
    requires o !in s
    ensures Without(s, o) == s
  {
    if s != [] {
      WithoutAbsent(s[1..], o);
    }
  }

  /** Registering a new observer and then removing it restores the list. */
  lemma AddThenRemove<T>(s: seq<T>, o: T)
    requires o !in s
    ensures Without(s + [o], o) == s
  {
    WithoutAppend(s, [o], o);
    WithoutAbsent(s, o);
  }

  /** How many times `o` occurs in `s`, counted from the back. */
  function Count<T(==)>(s: seq<T>, o: T): nat {
    if s == [] then 0 else Count(s[..|s| - 1], o) + (if s[|s| - 1] == o then 1 else 0)
  }

  lemma {:induction false} CountIsMultiplicity<T>(s: seq<T>, o: T)
    ensures Count(s, o) == multiset(s)[o]
  {
    if s != [] {
      CountIsMultiplicity(s[..|s| - 1], o);
      assert s == s[..|s| - 1] + [s[|s| - 1]];
    }
  }

  /** The `update` calls one notification makes, in order: one per list
      entry, in list order. */
  function Broadcast(obs: seq<Observer>, e: Event): (r: seq<(Observer, Event)>)
    ensures |r| == |obs| && forall i :: 0 <= i < |obs| ==> r[i] == (obs[i], e)
  {
    if obs == [] then [] else Broadcast(obs[..|obs| - 1], e) + [(obs[|obs| - 1], e)]
  }

  /** The `update` calls made by notifying the events `t` one after the
      other. */
  function BroadcastAll(obs: seq<Observer>, t: seq<Event>): seq<(Observer, Event)> {
    if t == [] then [] else BroadcastAll(obs, t[..|t| - 1]) + Broadcast(obs, t[|t| - 1])
  }

  lemma BroadcastAllSnoc(obs: seq<Observer>, t: seq<Event>, e: Event)
    ensures BroadcastAll(obs, t + [e]) == BroadcastAll(obs, t) + Broadcast(obs, e)
  {
    assert (t + [e])[..|t|] == t;
  }

  /** The subject: the observers in registration order (duplicates
      allowed) and the loading flag. `deliveries` records, as a proof
      device, every `update` call the subject has made, in order. */
  class DictionarySubject {
    var observers: seq<Observer>
    var loading: bool
    ghost var deliveries: seq<(Observer, Event)>

    constructor()
      ensures observers == [] && !loading && deliveries == []
    {
      observers := [];
      loading := false;
      deliveries := [];
    }

    method AddObserver(o: Observer)
      modifies this
      ensures observers == old(observers) + [o]
      ensures loading == old(loading) && deliveries == old(deliveries)
    {
      observers := observers + [o];
    }

    method RemoveObserver(o: Observer)
      modifies this
      ensures observers == Without(old(observers), o)
      ensures loading == old(loading) && deliveries == old(deliveries)
    {
      observers := Without(observers, o);
    }

    /** Calls `update` on each list entry in list order; an observer
        registered `k` times receives the event `k` times. */
    method NotifyObservers(e: Event)
      modifies this, set o | o in observers
      ensures observers == old(observers) && loading == old(loading)
      ensures deliveries == old(deliveries) + Broadcast(observers, e)
      ensures forall o :: o in observers ==>
                o.received == old(o.received) + Repeat(e, multiset(observers)[o])
    {
      var list := observers;
      ghost var before := map o | o in list :: o.received;
      var i := 0;
      while i < |list|
        invariant 0 <= i <= |list| && observers == list && loading == old(loading)
        invariant deliveries == old(deliveries) + Broadcast(list[..i], e)
        invariant forall o :: o in list ==> o.received == before[o] + Repeat(e, Count(list[..i], o))
      {
        Deliver(list[i], e);
        assert list[..i + 1][..i] == list[..i];
        i := i + 1;
      }
      assert list[..i] == list;
      forall o | o in list
        ensures o.received == old(o.received) + Repeat(e, multiset(list)[o])
      {
        CountIsMultiplicity(list, o);
      }
    }

    /** One `update` call, recorded in the log. */
    method Deliver(o: Observer, e: Event)
      modifies this, o
      ensures observers == old(observers) && loading == old(loading)
      ensures deliveries == old(deliveries) + [(o, e)]
      ensures o.received == old(o.received) + [e]
    {
      o.Update(e);
      deliveries := deliveries + [(o, e)];
    }

    method SetLoading(b: bool)
      modifies this, set o | o in observers
      ensures loading == b && IsLoading() == b
      ensures observers == old(observers)
      ensures deliveries == old(deliveries) + Broadcast(observers, Loading(b))
      ensures forall o :: o in observers ==>
                o.received == old(o.received) + Repeat(Loading(b), multiset(observers)[o])
    {
      loading := b;
      NotifyObservers(Loading(b));
    }

    function IsLoading(): bool
      reads this
    {
      loading
    }
  }
}
