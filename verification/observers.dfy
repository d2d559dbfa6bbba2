/**
 * WristbandObservable: an ordered subscriber list (duplicates allowed) and ten dispatch methods,
 * each calling one observer callback on every subscriber in list order.
 */
module Observers {
  import opened Events

  /** An IWristbandObserver; only its identity matters to the list. */
  class Observer {
    constructor () {}
  }

  /** One callback invocation: which observer received which event. */
  datatype Delivery = Delivery(observer: Observer, event: Event)

  /** The invocations one dispatch makes: each subscriber once, in list order. */
  function FanOut(observers: seq<Observer>, e: Event): (ds: seq<Delivery>)
    ensures |ds| == |observers|
    ensures forall i :: 0 <= i < |ds| ==> ds[i] == Delivery(observers[i], e)
  {
    seq(|observers|, i requires 0 <= i < |observers| => Delivery(observers[i], e))
  }

  /** List<T>.IndexOf: the first position of x, or |s| when x is absent. */
  function IndexOf<T(==)>(s: seq<T>, x: T): (k: nat)
    ensures k <= |s|
    ensures k < |s| <==> x in s
    ensures k < |s| ==> s[k] == x
    ensures forall i :: 0 <= i < k ==> s[i] != x
  {
    if |s| == 0 then 0
    else if s[0] == x then 0
    else 1 + IndexOf(s[1..], x)
  }

  /** List<T>.Remove: drops the first occurrence of x, if any. */
  function RemoveFirst<T(==)>(s: seq<T>, x: T): (r: seq<T>)
    ensures x !in s ==> r == s
    ensures x in s ==> |r| == |s| - 1
    ensures x in s ==> forall i :: 0 <= i < |r| ==> r[i] == if i < IndexOf(s, x) then s[i] else s[i + 1]
  {
    var k := IndexOf(s, x);
    if k == |s| then s else s[..k] + s[k + 1..]
  }

  /** Removing takes exactly one x out of the list's contents when there is one, and nothing otherwise. */
  lemma RemoveFirstContents<T>(s: seq<T>, x: T)
    ensures multiset(RemoveFirst(s, x)) == multiset(s) - multiset{x}
  {
    var k := IndexOf(s, x);
    if k == |s| {
      assert multiset(s)[x] == 0;
    } else {
      assert s == s[..k] + [x] + s[k + 1..];
      assert multiset(s) == multiset(s[..k]) + multiset{x} + multiset(s[k + 1..]);
    }
  }

  /** Subscribing an observer that is not yet listed and then unsubscribing it restores the list. */
  lemma {:induction false} SubscribeUnsubscribe<T>(s: seq<T>, x: T)
    requires x !in s
    ensures RemoveFirst(s + [x], x) == s
  {
    assert IndexOf(s + [x], x) == |s|;
    assert (s + [x])[..|s|] == s;
  }

  class Observable {
    /** The subscriber list (SubscribtionList). */
    var observers: seq<Observer>
    /** Every callback invoked so far, oldest first. */
    var delivered: seq<Delivery>

    constructor ()
      ensures observers == [] && delivered == []
    {
      observers := [];
      delivered := [];
    }

    /** SubscibeObserver: appends, even when the observer is already listed. */
    method SubscribeObserver(observer: Observer)
      modifies this
      ensures observers == old(observers) + [observer]
      ensures delivered == old(delivered)
    {
      observers := observers + [observer];
    }

    /** UnsubscibeObserver: removes the first occurrence only; an absent observer changes nothing. */
    method UnsubscribeObserver(observer: Observer)
      modifies this
      ensures observers == RemoveFirst(old(observers), observer)
      ensures delivered == old(delivered)
    {
      observers := RemoveFirst(observers, observer);
    }

    /** The foreach loop shared by the ten dispatch methods. */
    method Notify(e: Event)
      modifies this
      ensures observers == old(observers)
      ensures delivered == old(delivered) + FanOut(observers, e)
    {
      var i := 0;
      while i < |observers|
        invariant 0 <= i <= |observers|
        invariant observers == old(observers)
        invariant delivered == old(delivered) + FanOut(observers[..i], e)
      {
        assert FanOut(observers[..i + 1], e) == FanOut(observers[..i], e) + [Delivery(observers[i], e)];
        delivered := delivered + [Delivery(observers[i], e)];
        i := i + 1;
      }
      assert observers[..i] == observers;
    }

    method OnInitComplete()
      modifies this
      ensures observers == old(observers)
      ensures delivered == old(delivered) + FanOut(observers, BluetoothInitialized)
    {
      Notify(BluetoothInitialized);
    }

    method OnDeInitComplete()
      modifies this
      ensures observers == old(observers)
      ensures delivered == old(delivered) + FanOut(observers, BluetoothDeInitialized)
    {
      Notify(BluetoothDeInitialized);
    }

    method OnError(error: ProtocolError, info: string)
      modifies this
      ensures observers == old(observers)
      ensures delivered == old(delivered) + FanOut(observers, Error(error, info))
    {
      Notify(Error(error, info));
    }

    method OnDebugMessage(msg: string)
      modifies this
      ensures observers == old(observers)
      ensures delivered == old(delivered) + FanOut(observers, DebugMessage(msg))
    {
      Notify(DebugMessage(msg));
    }

    method OnConnected(peripheralId: string, peripheralName: string, profile: Services.Profile)
      modifies this
      ensures observers == old(observers)
      ensures delivered == old(delivered) + FanOut(observers, Connected(peripheralId, peripheralName, profile))
    {
      Notify(Connected(peripheralId, peripheralName, profile));
    }

    method OnDisconnected()
      modifies this
      ensures observers == old(observers)
      ensures delivered == old(delivered) + FanOut(observers, Disconnected)
    {
      Notify(Disconnected);
    }

    method OnMatchingProfile(peripheralId: string, peripheralName: string)
      modifies this
      ensures observers == old(observers)
      ensures delivered == old(delivered) + FanOut(observers, ProfileFound(peripheralId, peripheralName))
    {
      Notify(ProfileFound(peripheralId, peripheralName));
    }

    method OnUnknownProfile(peripheralId: string, peripheralName: string)
      modifies this
      ensures observers == old(observers)
      ensures delivered == old(delivered) + FanOut(observers, UnknownProfile(peripheralId, peripheralName))
    {
      Notify(UnknownProfile(peripheralId, peripheralName));
    }

    method OnStepsCollected(steps: Steps.StepsData)
      modifies this
      ensures observers == old(observers)
      ensures delivered == old(delivered) + FanOut(observers, StepsCollected(steps))
    {
      Notify(StepsCollected(steps));
    }

    method OnWriteComplete()
      modifies this
      ensures observers == old(observers)
      ensures delivered == old(delivered) + FanOut(observers, WriteComplete)
    {
      Notify(WriteComplete);
    }
  }

  /** A dispatch to a single subscriber is one delivery. */
  lemma FanOutSingle(o: Observer, e: Event)
    ensures FanOut([o], e) == [Delivery(o, e)]
  {
  }

  /** The deliveries a single subscriber receives for a series of dispatches. */
  function FanOutEvents(o: Observer, es: seq<Event>): (ds: seq<Delivery>)
    ensures |ds| == |es| && forall i :: 0 <= i < |es| ==> ds[i] == Delivery(o, es[i])
  {
    seq(|es|, i requires 0 <= i < |es| => Delivery(o, es[i]))
  }

  /** The ten events in the order the subscription test dispatches them, one per callback kind. */
  function TestEvents(data: Steps.StepsData): seq<Event>
  {
    [BluetoothInitialized, BluetoothDeInitialized, Error(InitializationFailed, "Debug Error"),
     Connected("001", "002", Services.KidsProfile), DebugMessage("Debug Message"), Disconnected,
     ProfileFound("001", "002"), UnknownProfile("001", "002"), StepsCollected(data), WriteComplete]
  }

  /** The first five dispatch methods of the test, with a single subscriber. */
  method DispatchFirstHalf(observable: Observable, o: Observer, data: Steps.StepsData)
    modifies observable
    requires observable.observers == [o]
    ensures observable.observers == [o]
    ensures observable.delivered == old(observable.delivered) + FanOutEvents(o, TestEvents(data)[..5])
  {
    ghost var es := TestEvents(data);
    ghost var d := observable.delivered;
    FanOutSingle(o, es[0]);
    observable.OnInitComplete();
    FanOutSingle(o, es[1]);
    observable.OnDeInitComplete();
    FanOutSingle(o, es[2]);
    observable.OnError(InitializationFailed, "Debug Error");
    FanOutSingle(o, es[3]);
    observable.OnConnected("001", "002", Services.KidsProfile);
    FanOutSingle(o, es[4]);
    observable.OnDebugMessage("Debug Message");
    assert observable.delivered == d + [Delivery(o, es[0]), Delivery(o, es[1]), Delivery(o, es[2]),
                                        Delivery(o, es[3]), Delivery(o, es[4])];
  }

  /** The last five dispatch methods of the test, with a single subscriber. */
  method DispatchSecondHalf(observable: Observable, o: Observer, data: Steps.StepsData)
    modifies observable
    requires observable.observers == [o]
    ensures observable.observers == [o]
    ensures observable.delivered == old(observable.delivered) + FanOutEvents(o, TestEvents(data)[5..])
  {
    ghost var es := TestEvents(data);
    ghost var d := observable.delivered;
    FanOutSingle(o, es[5]);
    observable.OnDisconnected();
    FanOutSingle(o, es[6]);
    observable.OnMatchingProfile("001", "002");
    FanOutSingle(o, es[7]);
    observable.OnUnknownProfile("001", "002");
    FanOutSingle(o, es[8]);
    observable.OnStepsCollected(data);
    FanOutSingle(o, es[9]);
    observable.OnWriteComplete();
    assert observable.delivered == d + [Delivery(o, es[5]), Delivery(o, es[6]), Delivery(o, es[7]),
                                        Delivery(o, es[8]), Delivery(o, es[9])];
  }

  /**
   * The subscription round trip: a fresh observer subscribed to a fresh observable is the whole
   * list; the ten dispatch methods then reach it once each, with their own callbacks, in call
   * order; unsubscribing it leaves the list empty.
   */
  method SubscriptionRoundTrip() returns (listed: seq<Observer>, data: Steps.StepsData,
                                          received: seq<Delivery>, after: seq<Observer>)
    ensures |listed| == 1 && |after| == 0
    ensures received == FanOutEvents(listed[0], TestEvents(data))
  {
    var observable := new Observable();
    var observer := new Observer();
    observable.SubscribeObserver(observer);
    listed := observable.observers;
    data := new Steps.StepsData();
    DispatchFirstHalf(observable, observer, data);
    DispatchSecondHalf(observable, observer, data);
    received := observable.delivered;
    assert received == FanOutEvents(observer, TestEvents(data));
    observable.UnsubscribeObserver(observer);
    SubscribeUnsubscribe([], observer);
    after := observable.observers;
  }
}
