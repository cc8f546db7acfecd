/**
  The listener list behind the renderer's stores: listeners subscribe and
  unsubscribe, and every change of state notifies each of them. A listener is
  an identifier here, and calling it is recorded in the returned trace of
  notified listeners.
*/
module Listeners {

  /** A subscribed callback, by identity. */
  type Listener = nat

  /** `array.indexOf(x)`: the first index of `x`, or -1 when it is absent. */
  function IndexOf(s: seq<Listener>, x: Listener): (r: int)
    ensures -1 <= r && (r == -1 <==> x !in s)
    ensures 0 <= r ==> r < |s| && s[r] == x && x !in s[..r]
  {
    if s == [] then -1
    else if s[0] == x then 0
    else
      var k := IndexOf(s[1..], x);
      if k == -1 then -1
      else
        assert s[k + 1] == s[1..][k] && s[..k + 1] == [s[0]] + s[1..][..k];
        k + 1
  }

  /** Where `splice(start, ...)` starts: a negative start counts from the end, and the result is clamped to `0..length`. */
  function SpliceStart(length: nat, start: int): (k: nat)
    ensures k <= length
    ensures 0 <= start ==> k == if start < length then start else length
    ensures start < 0 ==> k == if length + start < 0 then 0 else length + start
  {
    if start < 0 then (if length + start < 0 then 0 else length + start)
    else if start < length then start else length
  }

  /** `array.splice(start, 1)` on `s`: the element at the start position is removed, when there is one. */
  function SpliceOne(s: seq<Listener>, start: int): (r: seq<Listener>)
    ensures var k := SpliceStart(|s|, start);
            if k < |s| then r == s[..k] + s[k + 1..] else r == s
  {
    var k := SpliceStart(|s|, start);
    if k < |s| then s[..k] + s[k + 1..] else s
  }

  /** The listener list after `unsubscribe(x)`. */
  function Unsubscribed(s: seq<Listener>, x: Listener): seq<Listener> {
    SpliceOne(s, IndexOf(s, x))
  }

  /**
    Unsubscribing a subscribed listener removes exactly its first occurrence;
    unsubscribing one that is not subscribed removes the last listener, since
    `indexOf` gives -1; on an empty list nothing changes.
  */
  lemma UnsubscribeRemovesOne(s: seq<Listener>, x: Listener)
    ensures x in s ==> var k := IndexOf(s, x);
              Unsubscribed(s, x) == s[..k] + s[k + 1..] && x !in s[..k] &&
              multiset(Unsubscribed(s, x)) == multiset(s) - multiset{x}
    ensures x !in s && s != [] ==> Unsubscribed(s, x) == s[..|s| - 1]
    ensures s == [] ==> Unsubscribed(s, x) == []
  {
    if x in s {
      var k := IndexOf(s, x);
      assert s == s[..k] + [s[k]] + s[k + 1..];
    }
  }

  /** Unsubscribing a listener that was subscribed once leaves it subscribed no more. */
  lemma UnsubscribeOnce(s: seq<Listener>, x: Listener)
    requires multiset(s)[x] == 1
    ensures x !in Unsubscribed(s, x)
  {
    UnsubscribeRemovesOne(s, x);
    assert multiset(Unsubscribed(s, x))[x] == 0;
  }

  /** A store of a state of type `T` with its listeners. */
  class StoreBase<T> {
    var listeners: seq<Listener>
    var state: T

    /** `new StoreBase(initialState)`: no listeners yet. */
    constructor (initialState: T)
      ensures state == initialState && listeners == []
    {
      listeners := [];
      state := initialState;
    }

    /** `subscribe(listener)`: appends the listener. */
    method Subscribe(listener: Listener)
      modifies this
      ensures listeners == old(listeners) + [listener]
      ensures state == old(state)
    {
      listeners := listeners + [listener];
    }

    /** `unsubscribe(listener)`: `splice(indexOf(listener), 1)`. */
    method Unsubscribe(listener: Listener)
      modifies this
      ensures listeners == Unsubscribed(old(listeners), listener)
      ensures state == old(state)
    {
      var i := IndexOf(listeners, listener);
      listeners := SpliceOne(listeners, i);
    }

    /** `setState(newState)`: replaces the state, then calls every listener once, in list order. */
    method SetState(newState: T) returns (notified: seq<Listener>)
      modifies this
      ensures state == newState
      ensures listeners == old(listeners)
      ensures notified == listeners
    {
      state := newState;
      notified := [];
      for i := 0 to |listeners|
        invariant notified == listeners[..i]
      {
        notified := notified + [listeners[i]];
      }
    }
  }
}
