/** `MulticastObservable<T>`: a provider that pushes each notification to
    every subscribed observer, with deferred unsubscription and a terminal
    state after `Completed` or `Error`.

    Observers are external objects; here each is an `ObserverId`, and what
    the provider calls on them is appended to the `log` of deliveries, in
    call order. */
module Multicast {
  import opened Wrappers

  type ObserverId = nat

  datatype Fault = ArgumentNull | NotImplemented

  /** What an observer receives: `OnNext(value)`, `OnCompleted()`,
      `OnError(error)` (an exception identity), or a `ForEachObserver`
      action (an action identity). */
  datatype Event<T> = Next(value: T) | Completed | Error(error: nat) | Action(action: nat)

  datatype Delivery<T> = Delivery(observer: ObserverId, event: Event<T>)

  /** `List<T>.Remove`: drops the first occurrence of `x`, if any. */
  function RemoveFirst<X(==)>(s: seq<X>, x: X): (r: seq<X>)
    ensures |r| == if x in s then |s| - 1 else |s|
    ensures x !in s ==> r == s
  {
    if s == [] then []
    else if s[0] == x then s[1..]
    else [s[0]] + RemoveFirst(s[1..], x)
  }

  /** Removing each element of `removals`, in order, one occurrence at a time. */
  function RemoveEach<X(==)>(s: seq<X>, removals: seq<X>): (r: seq<X>)
    ensures |r| <= |s|
    decreases |removals|
  {
    if removals == [] then s
    else RemoveFirst(RemoveEach(s, removals[..|removals| - 1]), removals[|removals| - 1])
  }

  /** One removal more is one `RemoveFirst` more. */
  lemma RemoveEachSnoc<X>(s: seq<X>, removals: seq<X>, x: X)
    ensures RemoveEach(s, removals + [x]) == RemoveFirst(RemoveEach(s, removals), x)
  {
    assert (removals + [x])[..|removals|] == removals;
  }

  /** `RemoveFirst` takes exactly one occurrence of `x` away, if there is one. */
  lemma {:induction false} RemoveFirstCount<X>(s: seq<X>, x: X)
    ensures multiset(RemoveFirst(s, x)) == multiset(s) - multiset{x}
  {
    if s == [] {
    } else {
      assert s == [s[0]] + s[1..];
      if s[0] != x {
        RemoveFirstCount(s[1..], x);
      }
    }
  }

  /** The observers left are the subscribed ones minus the removals, as
      multisets: each removal cancels one subscription. */
  lemma {:induction false} RemoveEachCount<X>(s: seq<X>, removals: seq<X>)
    ensures multiset(RemoveEach(s, removals)) == multiset(s) - multiset(removals)
    decreases |removals|
  {
    if removals != [] {
      var front := removals[..|removals| - 1];
      var last := removals[|removals| - 1];
      assert removals == front + [last];
      RemoveEachCount(s, front);
      RemoveFirstCount(RemoveEach(s, front), last);
    }
  }

  /** `foreach (observer in observers) deliver(observer)`. */
  function Deliver<T>(observers: seq<ObserverId>, e: Event<T>): (r: seq<Delivery<T>>)
    ensures |r| == |observers|
    ensures forall i :: 0 <= i < |r| ==> r[i].observer == observers[i] && r[i].event == e
  {
    seq(|observers|, i requires 0 <= i < |observers| => Delivery(observers[i], e))
  }

  /** The unsubscription guarantee: an observer that asked to leave at least
      as many times as it subscribed receives nothing from the next
      notification on. */
  lemma UnsubscribedReceivesNothing<T>(observers: seq<ObserverId>, removals: seq<ObserverId>,
                                       x: ObserverId, e: Event<T>)
    requires multiset(observers)[x] <= multiset(removals)[x]
    ensures x !in RemoveEach(observers, removals)
    ensures forall d :: d in Deliver(RemoveEach(observers, removals), e) ==> d.observer != x
  {
    var r := RemoveEach(observers, removals);
    RemoveEachCount(observers, removals);
    var m: multiset<ObserverId> := multiset(r);
    assert m[x] == 0;
  }

  /** An observer still subscribed and not asked to leave keeps receiving. */
  lemma StillSubscribedReceives<T>(observers: seq<ObserverId>, removals: seq<ObserverId>,
                                   x: ObserverId, e: Event<T>)
    requires x in observers && x !in removals
    ensures Delivery(x, e) in Deliver(RemoveEach(observers, removals), e)
  {
    var r := RemoveEach(observers, removals);
    RemoveEachCount(observers, removals);
    var m: multiset<ObserverId> := multiset(r);
    assert m[x] == multiset(observers)[x] > 0;
    assert x in r;
    var i :| 0 <= i < |r| && r[i] == x;
    assert Deliver(r, e)[i] == Delivery(x, e);
  }

  /** What `Subscribe` hands back: a `Disposer`, or the shared
      `NullDisposer` once the provider is done. */
  datatype Subscription<T> = NullDisposer | Active(disposer: Disposer<T>)

  class MulticastObservable<T> {
    var observers: seq<ObserverId>
    var unsubscriptionList: seq<ObserverId>
    var isDone: bool
    /** Every call made on an observer, in order. */
    var log: seq<Delivery<T>>
    /** The observers announced by the `Subscribed` event, in order. */
    var subscribed: seq<ObserverId>

    /** Once done, nobody is subscribed and nothing is pending. */
    ghost predicate Valid()
      reads this
    {
      isDone ==> observers == [] && unsubscriptionList == []
    }

    constructor ()
      ensures Valid() && !isDone
      ensures observers == [] && unsubscriptionList == [] && log == [] && subscribed == []
    {
      observers := [];
      unsubscriptionList := [];
      isDone := false;
      log := [];
      subscribed := [];
    }

    /** A null observer throws; a done provider hands back the shared
        `NullDisposer`; otherwise the observer is announced, appended and
        given a fresh `Disposer`. */
    method Subscribe(observer: Option<ObserverId>) returns (r: Result<Subscription<T>, Fault>)
      requires Valid()
      modifies this
      ensures Valid()
      ensures observer.None? ==> r == Failure(ArgumentNull)
      ensures observer.Some? && old(isDone) ==> r == Success(NullDisposer)
      ensures observer.None? || old(isDone) ==> observers == old(observers) && subscribed == old(subscribed)
      ensures observer.Some? && !old(isDone) ==>
                && observers == old(observers) + [observer.value]
                && subscribed == old(subscribed) + [observer.value]
                && r.Success? && r.value.Active?
                && fresh(r.value.disposer)
                && r.value.disposer.observer == observer.value
                && r.value.disposer.observable == this
                && !r.value.disposer.isDisposed
      ensures isDone == old(isDone) && unsubscriptionList == old(unsubscriptionList) && log == old(log)
    {
      if observer.None? {
        return Failure(ArgumentNull);
      }

      if isDone {
        return Success(NullDisposer);
      }

      subscribed := subscribed + [observer.value];

      observers := observers + [observer.value];

      var d := new Disposer(observer.value, this);
      r := Success(Active(d));
    }

    /** Queues `observer` for removal before the next notification; ignored
        once the provider is done. */
    method RequestUnsubscription(observer: Option<ObserverId>) returns (r: Outcome<Fault>)
      requires Valid()
      modifies this
      ensures Valid()
      ensures r.Fail? <==> observer.None?
      ensures r.Fail? ==> r.error == ArgumentNull
      ensures unsubscriptionList == if observer.Some? && !old(isDone)
                                    then old(unsubscriptionList) + [observer.value]
                                    else old(unsubscriptionList)
      ensures observers == old(observers) && isDone == old(isDone)
      ensures log == old(log) && subscribed == old(subscribed)
    {
      if observer.None? {
        return Fail(ArgumentNull);
      }

      if isDone == false {
        unsubscriptionList := unsubscriptionList + [observer.value];
      }
      r := Pass;
    }

    /** Removes each queued observer (its first occurrence), then empties
        the queue. */
    method ProcessUnsubscriptions()
      requires Valid()
      modifies this
      ensures Valid()
      ensures observers == RemoveEach(old(observers), old(unsubscriptionList))
      ensures unsubscriptionList == []
      ensures isDone == old(isDone) && log == old(log) && subscribed == old(subscribed)
    {
      var i := 0;
      while i < |unsubscriptionList|
        invariant 0 <= i <= |unsubscriptionList|
        invariant unsubscriptionList == old(unsubscriptionList)
        invariant observers == RemoveEach(old(observers), unsubscriptionList[..i])
        invariant isDone == old(isDone) && log == old(log) && subscribed == old(subscribed)
        invariant isDone ==> observers == []
      {
        assert unsubscriptionList[..i + 1] == unsubscriptionList[..i] + [unsubscriptionList[i]];
        RemoveEachSnoc(old(observers), unsubscriptionList[..i], unsubscriptionList[i]);
        observers := RemoveFirst(observers, unsubscriptionList[i]);
        i := i + 1;
      }
      assert unsubscriptionList[..i] == unsubscriptionList;
      unsubscriptionList := [];
    }

    /** Calls every current observer with `e`, in subscription order. */
    method Broadcast(e: Event<T>)
      modifies this`log
      ensures log == old(log) + Deliver(observers, e)
    {
      var i := 0;
      while i < |observers|
        invariant 0 <= i <= |observers|
        invariant log == old(log) + Deliver(observers[..i], e)
      {
        assert Deliver(observers[..i + 1], e) == Deliver(observers[..i], e) + [Delivery(observers[i], e)];
        log := log + [Delivery(observers[i], e)];
        i := i + 1;
      }
      assert observers[..i] == observers;
    }

    /** Applies an action to every observer left after processing the
        queued unsubscriptions; unlike the notifications it does not look at
        `isDone`. */
    method ForEachObserver(action: Option<nat>) returns (r: Outcome<Fault>)
      requires Valid()
      modifies this
      ensures Valid()
      ensures r.Fail? <==> action.None?
      ensures r.Fail? ==> r.error == ArgumentNull && unchanged(this)
      ensures r.Pass? ==>
                && observers == RemoveEach(old(observers), old(unsubscriptionList))
                && unsubscriptionList == []
                && log == old(log) + Deliver(observers, Action(action.value))
      ensures isDone == old(isDone) && subscribed == old(subscribed)
    {
      if action.None? {
        return Fail(ArgumentNull);
      }

      ProcessUnsubscriptions();

      Broadcast(Action(action.value));
      r := Pass;
    }

    /** Pushes `value` to every observer, unless done. */
    method NotifyNext(value: T)
      requires Valid()
      modifies this
      ensures Valid()
      ensures old(isDone) ==> unchanged(this)
      ensures !old(isDone) ==>
                && observers == RemoveEach(old(observers), old(unsubscriptionList))
                && unsubscriptionList == []
                && log == old(log) + Deliver(observers, Next(value))
      ensures isDone == old(isDone) && subscribed == old(subscribed)
    {
      if isDone {
        return;
      }

      ProcessUnsubscriptions();

      Broadcast(Next(value));
    }

    /** Tells every observer the stream has ended, then drops them all and
        becomes done; nothing is delivered after that. */
    method NotifyCompleted()
      requires Valid()
      modifies this
      ensures Valid() && isDone
      ensures old(isDone) ==> unchanged(this)
      ensures !old(isDone) ==>
                log == old(log) + Deliver(RemoveEach(old(observers), old(unsubscriptionList)), Completed)
      ensures observers == [] && unsubscriptionList == [] && subscribed == old(subscribed)
    {
      if isDone {
        return;
      }

      ProcessUnsubscriptions();

      Broadcast(Completed);

      observers := [];
      isDone := true;
    }

    /** Passes `error` to every observer, then drops them all and becomes
        done. */
    method NotifyError(error: nat)
      requires Valid()
      modifies this
      ensures Valid() && isDone
      ensures old(isDone) ==> unchanged(this)
      ensures !old(isDone) ==>
                log == old(log) + Deliver(RemoveEach(old(observers), old(unsubscriptionList)), Error(error))
      ensures observers == [] && unsubscriptionList == [] && subscribed == old(subscribed)
    {
      if isDone {
        return;
      }

      ProcessUnsubscriptions();

      Broadcast(Error(error));

      observers := [];
      isDone := true;
    }
  }

  /** The subscription handle: disposing it requests the unsubscription of
      its observer, once. */
  class Disposer<T> {
    const observer: ObserverId
    const observable: MulticastObservable<T>
    var isDisposed: bool

    constructor (observer: ObserverId, observable: MulticastObservable<T>)
      ensures this.observer == observer && this.observable == observable && !isDisposed
    {
      this.observer := observer;
      this.observable := observable;
      isDisposed := false;
    }

    /** Idempotent: only the first call queues the unsubscription. */
    method Dispose()
      requires observable.Valid()
      modifies this, observable
      ensures observable.Valid() && isDisposed
      ensures observable.unsubscriptionList ==
                if !old(isDisposed) && !old(observable.isDone)
                then old(observable.unsubscriptionList) + [observer]
                else old(observable.unsubscriptionList)
      ensures observable.observers == old(observable.observers) && observable.log == old(observable.log)
      ensures observable.isDone == old(observable.isDone) && observable.subscribed == old(observable.subscribed)
    {
      if isDisposed {
        return;
      }

      isDisposed := true;

      var _ := observable.RequestUnsubscription(Some(observer));
    }
  }

  /** `IDisposable.Dispose` on a subscription handle; the shared
      `NullDisposer` throws `NotImplementedException`. */
  method Dispose<T>(s: Subscription<T>) returns (r: Outcome<Fault>)
    requires s.Active? ==> s.disposer.observable.Valid()
    modifies if s.Active? then {s.disposer, s.disposer.observable} else {}
    ensures r.Fail? <==> s.NullDisposer?
    ensures r.Fail? ==> r.error == NotImplemented
    ensures s.Active? ==> s.disposer.isDisposed && s.disposer.observable.Valid()
    ensures s.Active? ==>
              var o := s.disposer.observable;
              && o.unsubscriptionList ==
                   (if !old(s.disposer.isDisposed) && !old(o.isDone)
                    then old(o.unsubscriptionList) + [s.disposer.observer]
                    else old(o.unsubscriptionList))
              && o.observers == old(o.observers) && o.log == old(o.log)
              && o.isDone == old(o.isDone) && o.subscribed == old(o.subscribed)
  {
    if s.NullDisposer? {
      return Fail(NotImplemented);
    }
    s.disposer.Dispose();
    r := Pass;
  }
}
